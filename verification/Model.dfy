/** The values every other module works on: adapters, device replies and the
    rules for names (internal/registry/adapter.go, internal/dt241m/dt241m.go). */
module Model {
  import opened Text

  datatype Role = Transmitter | Receiver | Unknown

  function RoleText(role: Role): string {
    match role
    case Transmitter => "transmitter"
    case Receiver => "receiver"
    case Unknown => "unknown"
  }

  /** One DT241M unit. `mac` is its identity; `ip` is only where it was last
      reached, "" when it never was. Times are nanoseconds since the Unix epoch. */
  datatype Adapter = Adapter(
    mac: string, id: string, role: Role, ip: string, name: Option<string>,
    reportedName: string, productName: string, model: string, firmware: string,
    channel: Option<int>, online: bool, firstSeenAt: int, lastSeenAt: int)

  /** A decoded reply to get_device_info_proav. */
  datatype DeviceInfo = DeviceInfo(
    devName: string, productName: string, model: string, version: string,
    lanMac: string, channelID: int)

  const MIN_CHANNEL := 0
  const MAX_CHANNEL := 255

  predicate ValidChannel(channel: int) {
    MIN_CHANNEL <= channel <= MAX_CHANNEL
  }

  /** The user's name when set, otherwise what the hardware reports. */
  function DisplayName(a: Adapter): string {
    if a.name.Some? then a.name.value
    else if a.reportedName != "" then a.reportedName
    else if a.productName != "" then a.productName
    else a.id
  }

  // ----- Classification -----

  function LowerAscii(s: string): string {
    seq(|s|, i requires 0 <= i < |s| => if 'A' <= s[i] <= 'Z' then ((s[i] as int) + 32) as char else s[i])
  }

  predicate Contains(s: string, part: string) {
    exists i | 0 <= i <= |s| :: part <= s[i..]
  }

  /** The role follows from product name and model; the device name is ignored. */
  function Classify(info: DeviceInfo): Role {
    var product, model := LowerAscii(info.productName), LowerAscii(info.model);
    var looksTx := Contains(product, "proavtx") || Contains(model, "proavtx");
    var looksRx := Contains(product, "proavrx") || Contains(model, "proavrx");
    if looksTx && !looksRx then Transmitter
    else if looksRx && !looksTx then Receiver
    else Unknown
  }

  /** c is the lower-case letter d, in either case. */
  predicate SameLetter(c: char, d: char) {
    c == d || ('A' <= c <= 'Z' && c as int + 32 == d as int)
  }

  /** The word occurs in s, in any mix of cases. */
  predicate Mentions(s: string, word: string) {
    exists i | 0 <= i <= |s| - |word| :: MentionedAt(s, word, i)
  }

  predicate MentionedAt(s: string, word: string, i: nat)
    requires i + |word| <= |s|
  {
    forall k | 0 <= k < |word| :: SameLetter(s[i + k], word[k])
  }

  lemma MentionsIff(s: string, word: string)
    requires forall k | 0 <= k < |word| :: 'a' <= word[k] <= 'z'
    ensures Contains(LowerAscii(s), word) <==> Mentions(s, word)
  {
    var low := LowerAscii(s);
    if Contains(low, word) {
      var i :| 0 <= i <= |low| && word <= low[i..];
      MentionedIff(s, word, i);
    }
    if Mentions(s, word) {
      var i :| 0 <= i <= |s| - |word| && MentionedAt(s, word, i);
      MentionedIff(s, word, i);
    }
  }

  lemma MentionedIff(s: string, word: string, i: nat)
    requires i <= |s| && forall k | 0 <= k < |word| :: 'a' <= word[k] <= 'z'
    ensures word <= LowerAscii(s)[i..] <==> i + |word| <= |s| && MentionedAt(s, word, i)
  {
    var low := LowerAscii(s);
    if i + |word| <= |s| {
      assert forall k | 0 <= k < |word| :: low[i..][k] == low[i + k];
      forall k | 0 <= k < |word| ensures low[i + k] == word[k] <==> SameLetter(s[i + k], word[k]) {
        LowerIsSame(s, i + k, word[k]);
      }
    }
  }

  lemma LowerIsSame(s: string, j: nat, d: char)
    requires j < |s| && 'a' <= d <= 'z'
    ensures LowerAscii(s)[j] == d <==> SameLetter(s[j], d)
  {
  }

  /** A transmitter mentions ProAVTx and not ProAVRx, a receiver the other way
      round, in product name or model and in any case; anything else is unknown. */
  lemma ClassifyMeaning(info: DeviceInfo)
    ensures var tx := Mentions(info.productName, "proavtx") || Mentions(info.model, "proavtx");
            var rx := Mentions(info.productName, "proavrx") || Mentions(info.model, "proavrx");
            && (Classify(info) == Transmitter <==> tx && !rx)
            && (Classify(info) == Receiver <==> rx && !tx)
            && (Classify(info) == Unknown <==> (tx <==> rx))
  {
    MentionsIff(info.productName, "proavtx");
    MentionsIff(info.model, "proavtx");
    MentionsIff(info.productName, "proavrx");
    MentionsIff(info.model, "proavrx");
  }

  // ----- User-editable names -----

  const MAX_NAME_LENGTH := 64

  datatype NameRequest = Clear | Use(name: string) | Refuse

  /** unicode.IsSpace. */
  predicate IsSpace(c: char) {
    var n := c as int;
    || 9 <= n <= 13 || n in {32, 0x85, 0xa0, 0x1680, 0x2028, 0x2029, 0x202f, 0x205f, 0x3000}
    || 0x2000 <= n <= 0x200a
  }

  predicate IsControl(c: char) {
    c as int <= 0x1f || c as int == 0x7f
  }

  function TrimLeft(s: string): (r: string)
    ensures |r| <= |s| && r == s[|s| - |r|..]
    ensures r != "" ==> !IsSpace(r[0])
  {
    if s != "" && IsSpace(s[0]) then TrimLeft(s[1..]) else s
  }

  function TrimRight(s: string): (r: string)
    ensures |r| <= |s| && r == s[..|r|]
    ensures r != "" ==> !IsSpace(r[|r| - 1])
  {
    if s != "" && IsSpace(s[|s| - 1]) then TrimRight(s[..|s| - 1]) else s
  }

  function TrimSpace(s: string): string {
    TrimRight(TrimLeft(s))
  }

  predicate AcceptableName(name: string) {
    && 0 < |name| <= MAX_NAME_LENGTH
    && !IsSpace(name[0]) && !IsSpace(name[|name| - 1])
    && forall i | 0 <= i < |name| :: !IsControl(name[i])
  }

  function ValidateName(raw: string): (r: NameRequest) {
    var trimmed := TrimSpace(raw);
    if trimmed == "" then Clear
    else if |trimmed| > MAX_NAME_LENGTH then Refuse
    else if exists i | 0 <= i < |trimmed| :: IsControl(trimmed[i]) then Refuse
    else Use(trimmed)
  }

  /** A name that is accepted is bounded, unpadded and printable, and is
      accepted again unchanged. */
  lemma AcceptedNameIsStable(raw: string)
    requires ValidateName(raw).Use?
    ensures AcceptableName(ValidateName(raw).name)
    ensures ValidateName(ValidateName(raw).name) == ValidateName(raw)
  {
    var left, name := TrimLeft(raw), TrimSpace(raw);
    assert name[0] == left[0];
    assert TrimLeft(name) == name;
  }

  predicate AllSpace(s: string) {
    forall i | 0 <= i < |s| :: IsSpace(s[i])
  }

  /** Empty, or without white space at either end. */
  predicate Unpadded(s: string) {
    s == "" || (!IsSpace(s[0]) && !IsSpace(s[|s| - 1]))
  }

  lemma {:induction false} TrimLeftOf(pre: string, rest: string)
    requires AllSpace(pre) && (rest == "" || !IsSpace(rest[0]))
    ensures TrimLeft(pre + rest) == rest
    decreases |pre|
  {
    if pre == "" {
      assert pre + rest == rest;
    } else {
      assert (pre + rest)[0] == pre[0] && (pre + rest)[1..] == pre[1..] + rest;
      TrimLeftOf(pre[1..], rest);
    }
  }

  lemma {:induction false} TrimRightOf(rest: string, post: string)
    requires AllSpace(post) && (rest == "" || !IsSpace(rest[|rest| - 1]))
    ensures TrimRight(rest + post) == rest
    decreases |post|
  {
    if post == "" {
      assert rest + post == rest;
    } else {
      var n := |post| - 1;
      assert (rest + post)[|rest| + n] == post[n] && (rest + post)[..|rest| + n] == rest + post[..n];
      TrimRightOf(rest, post[..n]);
    }
  }

  /** What becomes of a requested name: padding is dropped; nothing left clears the
      name; more than 64 characters or a control character refuse it. */
  lemma ValidateNameExactly(pre: string, name: string, post: string)
    requires AllSpace(pre) && AllSpace(post) && Unpadded(name)
    ensures ValidateName(pre + name + post) ==
            if name == "" then Clear
            else if |name| > 64 || (exists i | 0 <= i < |name| :: name[i] as int < 32 || name[i] as int == 127)
            then Refuse
            else Use(name)
  {
    TrimsToName(pre, name, post);
    ValidateTrimmed(pre + name + post, name);
  }

  lemma ValidateTrimmed(raw: string, name: string)
    requires TrimSpace(raw) == name
    ensures ValidateName(raw) ==
            if name == "" then Clear
            else if |name| > 64 || (exists i | 0 <= i < |name| :: name[i] as int < 32 || name[i] as int == 127)
            then Refuse
            else Use(name)
  {
    assert forall i | 0 <= i < |name| :: IsControl(name[i]) <==> name[i] as int < 32 || name[i] as int == 127;
  }

  lemma TrimsToName(pre: string, name: string, post: string)
    requires AllSpace(pre) && AllSpace(post) && Unpadded(name)
    ensures TrimSpace(pre + name + post) == name
  {
    if name == "" {
      AllSpaceTrims(pre + name + post);
    } else {
      TrimsLeftFirst(pre, name, post);
      TrimRightOf(name, post);
    }
  }

  lemma AllSpaceTrims(s: string)
    requires AllSpace(s)
    ensures TrimSpace(s) == ""
  {
    TrimLeftOf(s, "");
    assert s + "" == s;
  }

  lemma Regroup(x: string, y: string, z: string)
    ensures x + y + z == x + (y + z)
  {
  }

  lemma TrimsLeftFirst(pre: string, name: string, post: string)
    requires AllSpace(pre) && name != "" && !IsSpace(name[0])
    ensures TrimLeft(pre + name + post) == name + post
  {
    Regroup(pre, name, post);
    TrimLeftOf(pre, name + post);
  }

  /** Every text is some name with padding, so the above says it all. */
  lemma NameAndPadding(raw: string) returns (pre: string, name: string, post: string)
    ensures raw == pre + name + post && AllSpace(pre) && AllSpace(post) && Unpadded(name)
  {
    var left;
    pre, left := PadOnTheLeft(raw);
    name, post := PadOnTheRight(left);
    Regroup(pre, name, post);
    assert name != "" ==> name[0] == left[0];
  }

  lemma {:induction false} PadOnTheLeft(s: string) returns (pre: string, rest: string)
    ensures s == pre + rest && AllSpace(pre) && (rest == "" || !IsSpace(rest[0]))
  {
    if s == "" || !IsSpace(s[0]) {
      pre, rest := "", s;
    } else {
      pre, rest := PadOnTheLeft(s[1..]);
      assert s == [s[0]] + s[1..];
      pre := [s[0]] + pre;
    }
  }

  lemma {:induction false} PadOnTheRight(s: string) returns (rest: string, post: string)
    ensures s == rest + post && AllSpace(post) && (rest == "" || !IsSpace(rest[|rest| - 1]))
  {
    var n := |s| - 1;
    if s == "" || !IsSpace(s[n]) {
      rest, post := s, "";
    } else {
      rest, post := PadOnTheRight(s[..n]);
      assert s == s[..n] + [s[n]];
      post := post + [s[n]];
    }
  }

  /** What is shown: the user's name before the device's own, that before the
      product's, and the id when all are missing. */
  lemma DisplayNameMeaning(a: Adapter, shown: string)
    ensures a.(name := Some(shown)) == a ==> DisplayName(a) == shown
    ensures a.(name := None, reportedName := shown) == a && shown != "" ==> DisplayName(a) == shown
    ensures a.(name := None, reportedName := "", productName := shown) == a && shown != "" ==> DisplayName(a) == shown
    ensures a.(name := None, reportedName := "", productName := "", id := shown) == a ==> DisplayName(a) == shown
  {
  }
}
