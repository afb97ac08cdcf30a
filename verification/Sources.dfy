/** The transmitter catalogue offered to receivers (internal/registry/sources.go). */
module Sources {
  import opened Text
  import opened Model
  import R = Registry

  const SOURCE_NONE := "none"

  /** A transmitter as a receiver sees it. */
  datatype Source = Source(caption: string, mac: string, channel: int)

  type Table = seq<Source>

  /** What the table depends on: every transmitter with a reported channel. */
  datatype Tx = Tx(name: string, channel: int)

  type Catalogue = map<string, Tx>

  predicate Listed(a: Adapter) {
    a.role == Transmitter && a.channel.Some?
  }

  function CatalogueOf(reg: R.Inventory): Catalogue {
    map m | m in reg && Listed(reg[m]) :: Tx(DisplayName(reg[m]), reg[m].channel.value)
  }

  // ----- Labels -----

  predicate Shared(cat: Catalogue, m: string)
    requires m in cat
  {
    exists n | n in cat :: n != m && cat[n].name == cat[m].name
  }

  function Disambiguated(tx: Tx): string {
    tx.name + " (ch " + Itoa(tx.channel) + ")"
  }

  /** The display name, with the channel added when the name is shared. */
  function Label(cat: Catalogue, m: string): string
    requires m in cat
  {
    if Shared(cat, m) then Disambiguated(cat[m]) else cat[m].name
  }

  function Entry(cat: Catalogue, m: string): Source
    requires m in cat
  {
    Source(Label(cat, m), m, cat[m].channel)
  }

  function Entries(cat: Catalogue): set<Source> {
    set m | m in cat :: Entry(cat, m)
  }

  lemma SuffixesAlign(x: string, d: string, y: string, e: string)
    requires ' ' !in d && ' ' !in e
    requires x + " (ch " + d + ")" == y + " (ch " + e + ")"
    ensures x == y && d == e
  {
    var s, t := x + " (ch " + d + ")", y + " (ch " + e + ")";
    var i, j := |x| + 4, |y| + 4;
    assert s[i] == ' ' && t[j] == ' ';
    assert forall k | i < k < |s| :: s[k] != ' ' by {
      assert forall k | i < k < |s| - 1 :: s[k] == d[k - i - 1];
    }
    assert forall k | j < k < |t| :: t[k] != ' ' by {
      assert forall k | j < k < |t| - 1 :: t[k] == e[k - j - 1];
    }
    assert i == j;
    assert x == s[..|x|] && y == t[..|y|];
    assert d == s[|x| + 5..|s| - 1] && e == t[|y| + 5..|t| - 1];
  }

  /** The "name (ch N)" format is injective. */
  lemma DisambiguatedInjective(a: Tx, b: Tx)
    requires Disambiguated(a) == Disambiguated(b)
    ensures a == b
  {
    ItoaAlphabet(a.channel);
    ItoaAlphabet(b.channel);
    SuffixesAlign(a.name, Itoa(a.channel), b.name, Itoa(b.channel));
    ItoaRoundTrip(a.channel);
    ItoaRoundTrip(b.channel);
  }

  /** No unshared display name reads like the disambiguated label of a
      transmitter on another channel. */
  predicate Unambiguous(cat: Catalogue) {
    forall a, b | a in cat && b in cat && Shared(cat, a) && !Shared(cat, b) && cat[b].name == Disambiguated(cat[a]) ::
      cat[a].channel == cat[b].channel
  }

  /** Equal labels mean equal channels exactly when the catalogue is unambiguous. */
  lemma LabelsDetermineChannels(cat: Catalogue)
    ensures Unambiguous(cat) <==>
            forall a, b | a in cat && b in cat && Label(cat, a) == Label(cat, b) :: cat[a].channel == cat[b].channel
  {
    if Unambiguous(cat) {
      forall a, b | a in cat && b in cat && Label(cat, a) == Label(cat, b)
        ensures cat[a].channel == cat[b].channel
      {
        if Shared(cat, a) && Shared(cat, b) {
          DisambiguatedInjective(cat[a], cat[b]);
        }
      }
    } else {
      var a, b :| a in cat && b in cat && Shared(cat, a) && !Shared(cat, b)
        && cat[b].name == Disambiguated(cat[a]) && cat[a].channel != cat[b].channel;
      assert Label(cat, a) == Label(cat, b);
    }
  }

  /** The condition is needed: a transmitter named after another one's
      disambiguated label takes over its option. */
  lemma AmbiguousNameExample()
    ensures var cat := map["a" := Tx("X", 1), "b" := Tx("X", 2), "c" := Tx("X (ch 1)", 5)];
            && !Unambiguous(cat)
            && Label(cat, "a") == Label(cat, "c") && cat["a"].channel != cat["c"].channel
  {
    var cat := map["a" := Tx("X", 1), "b" := Tx("X", 2), "c" := Tx("X (ch 1)", 5)];
    assert "a" != "b" && "a" != "c" && "b" != "c";
    assert cat["b"].name == cat["a"].name;
    assert |cat["c"].name| == 8 && |cat["a"].name| == 1;
    assert Itoa(1) == "1";
    assert "X" + " (ch " + "1" + ")" == "X (ch 1)";
    assert Shared(cat, "a") && !Shared(cat, "c");
  }

  // ----- Display order -----

  /** By label; among equal labels by MAC, the order they were collected in. */
  predicate Before(s: Source, t: Source) {
    if s.caption == t.caption then AtMost(s.mac, t.mac) else AtMost(s.caption, t.caption)
  }

  predicate Ordered(t: Table) {
    forall i, j | 0 <= i < j < |t| :: Before(t[i], t[j]) && t[i].mac != t[j].mac
  }

  function Elements(t: Table): set<Source> {
    set s | s in t
  }

  lemma BeforeTotal(s: Source, t: Source)
    ensures Before(s, t) || Before(t, s)
  {
    AtMostTotal(s.caption, t.caption);
    AtMostTotal(s.mac, t.mac);
  }

  lemma BeforeAntisymmetric(s: Source, t: Source)
    requires Before(s, t) && Before(t, s)
    ensures s.mac == t.mac
  {
    if s.caption == t.caption {
      AtMostAntisymmetric(s.mac, t.mac);
    } else {
      AtMostAntisymmetric(s.caption, t.caption);
    }
  }

  lemma BeforeTransitive(s: Source, t: Source, u: Source)
    requires Before(s, t) && Before(t, u)
    ensures Before(s, u)
  {
    AtMostTotal(s.caption, s.caption);
    AtMostTotal(u.caption, u.caption);
    AtMostTransitive(s.caption, t.caption, u.caption);
    if s.caption == t.caption == u.caption {
      AtMostTransitive(s.mac, t.mac, u.mac);
    } else if s.caption == u.caption {
      AtMostAntisymmetric(s.caption, t.caption);
    }
  }

  function Insert(t: Table, s: Source): Table {
    if t == [] then [s]
    else if Before(s, t[0]) then [s] + t
    else [t[0]] + Insert(t[1..], s)
  }

  lemma {:induction false} InsertKeepsOrder(t: Table, s: Source)
    requires Ordered(t) && forall i | 0 <= i < |t| :: t[i].mac != s.mac
    ensures Ordered(Insert(t, s)) && Elements(Insert(t, s)) == Elements(t) + {s}
  {
    if t != [] {
      if Before(s, t[0]) {
        forall i | 0 <= i < |t| ensures Before(s, t[i]) {
          if i > 0 {
            BeforeTransitive(s, t[0], t[i]);
          }
        }
      } else {
        BeforeTotal(s, t[0]);
        InsertKeepsOrder(t[1..], s);
        var rest := Insert(t[1..], s);
        forall i | 0 <= i < |rest| ensures Before(t[0], rest[i]) && t[0].mac != rest[i].mac {
          assert rest[i] in Elements(t[1..]) + {s};
        }
        ElementsCons(t[0], t[1..]);
        ElementsCons(t[0], rest);
        assert t == [t[0]] + t[1..];
      }
    }
  }

  lemma ElementsCons(s: Source, t: Table)
    ensures Elements([s] + t) == {s} + Elements(t)
  {
    var u := [s] + t;
    assert forall i | 0 < i < |u| :: u[i] == t[i - 1];
    assert forall i | 0 <= i < |t| :: t[i] == u[i + 1];
  }

  lemma NoElements(t: Table)
    ensures Elements(t) == {} <==> t == []
  {
    assert t != [] ==> t[0] in Elements(t);
  }

  /** Two ordered tables with the same entries are the same table. */
  lemma {:induction false} OrderedUnique(t: Table, u: Table)
    requires Ordered(t) && Ordered(u) && Elements(t) == Elements(u)
    ensures t == u
    decreases |t|
  {
    NoElements(t);
    NoElements(u);
    if t != [] && u != [] {
      assert u[0] in Elements(t) && t[0] in Elements(u);
      var i :| 0 <= i < |t| && t[i] == u[0];
      var j :| 0 <= j < |u| && u[j] == t[0];
      if i > 0 && j > 0 {
        BeforeAntisymmetric(t[0], u[0]);
      }
      assert t[0] == u[0];
      assert Elements(t[1..]) == Elements(t) - {t[0]};
      assert Elements(u[1..]) == Elements(u) - {u[0]};
      OrderedUnique(t[1..], u[1..]);
      assert t == [t[0]] + t[1..] && u == [u[0]] + u[1..];
    }
  }

  predicate DistinctMacs(es: set<Source>) {
    forall s, t | s in es && t in es && s.mac == t.mac :: s == t
  }

  ghost function Arrange(es: set<Source>): (t: Table)
    requires DistinctMacs(es)
    ensures Ordered(t) && Elements(t) == es
  {
    if es == {} then []
    else
      var s :| s in es;
      var rest := Arrange(es - {s});
      assert forall i | 0 <= i < |rest| :: rest[i] in Elements(rest);
      InsertKeepsOrder(rest, s);
      Insert(rest, s)
  }

  /** The source table of a catalogue. */
  ghost function TableOf(cat: Catalogue): Table {
    Arrange(Entries(cat))
  }

  ghost function TableNow(reg: R.Inventory): Table {
    TableOf(CatalogueOf(reg))
  }

  lemma TableEntries(cat: Catalogue)
    ensures Ordered(TableOf(cat)) && Elements(TableOf(cat)) == Entries(cat)
    ensures forall m | m in cat :: Entry(cat, m) in TableOf(cat)
    ensures forall i | 0 <= i < |TableOf(cat)| ::
              TableOf(cat)[i].mac in cat && TableOf(cat)[i] == Entry(cat, TableOf(cat)[i].mac)
  {
    var t := TableOf(cat);
    forall m | m in cat ensures Entry(cat, m) in t {
      assert Entry(cat, m) in Entries(cat);
      assert Entry(cat, m) in Elements(t);
    }
    forall i | 0 <= i < |t| ensures t[i].mac in cat && t[i] == Entry(cat, t[i].mac) {
      assert t[i] in Elements(t);
    }
  }

  // ----- Queries -----

  function Options(t: Table): seq<string> {
    seq(|t|, i requires 0 <= i < |t| => t[i].caption)
  }

  function ByLabel(t: Table, caption: string): Option<Source> {
    if t == [] then None
    else if t[0].caption == caption then Some(t[0])
    else ByLabel(t[1..], caption)
  }

  function FirstOn(t: Table, channel: int): Option<Source> {
    if t == [] then None
    else if t[0].channel == channel then Some(t[0])
    else FirstOn(t[1..], channel)
  }

  function ForChannel(t: Table, channel: Option<int>): string {
    if channel.Some? && FirstOn(t, channel.value).Some? then FirstOn(t, channel.value).value.caption else SOURCE_NONE
  }

  function MacsOn(t: Table, channel: int): seq<string> {
    if t == [] then []
    else (if t[0].channel == channel then [t[0].mac] else []) + MacsOn(t[1..], channel)
  }

  lemma {:induction false} FirstOnMeaning(t: Table, channel: int)
    ensures FirstOn(t, channel) == None <==> forall i | 0 <= i < |t| :: t[i].channel != channel
    ensures FirstOn(t, channel).Some? ==> FirstOn(t, channel).value in t && FirstOn(t, channel).value.channel == channel
  {
    if t != [] {
      FirstOnMeaning(t[1..], channel);
      assert forall i | 0 < i < |t| :: t[i] == t[1..][i - 1];
    }
  }

  /** FirstOn answers with the entry at k or one before it. */
  lemma {:induction false} FirstOnIsEarliest(t: Table, k: nat) returns (i: nat)
    requires k < |t|
    ensures i <= k && FirstOn(t, t[k].channel) == Some(t[i])
  {
    if t[0].channel == t[k].channel {
      i := 0;
    } else {
      i := FirstOnIsEarliest(t[1..], k - 1);
      i := i + 1;
    }
  }

  lemma {:induction false} ByLabelMeaning(t: Table, caption: string)
    ensures ByLabel(t, caption) == None <==> forall i | 0 <= i < |t| :: t[i].caption != caption
    ensures ByLabel(t, caption).Some? ==> ByLabel(t, caption).value in t && ByLabel(t, caption).value.caption == caption
  {
    if t != [] {
      ByLabelMeaning(t[1..], caption);
      assert forall i | 0 < i < |t| :: t[i] == t[1..][i - 1];
    }
  }

  /** Where labels determine channels, what a receiver is shown for a carried
      channel selects that channel again. */
  lemma ShownSourceSelectsItsChannel(cat: Catalogue, channel: int)
    requires Unambiguous(cat)
    requires exists m | m in cat :: cat[m].channel == channel
    ensures var s := ByLabel(TableOf(cat), ForChannel(TableOf(cat), Some(channel)));
            s.Some? && s.value.channel == channel
  {
    var t := TableOf(cat);
    TableEntries(cat);
    LabelsDetermineChannels(cat);
    FirstOnMeaning(t, channel);
    var m :| m in cat && cat[m].channel == channel;
    assert Entry(cat, m).channel == channel;
    var shown := FirstOn(t, channel).value;
    ByLabelMeaning(t, shown.caption);
    var s := ByLabel(t, shown.caption).value;
    assert Label(cat, s.mac) == Label(cat, shown.mac);
  }

  /** Without channel collisions, a selected label is shown again once the
      receiver reports that source's channel. */
  lemma SelectedSourceIsShown(cat: Catalogue, caption: string)
    requires forall m, n | m in cat && n in cat && cat[m].channel == cat[n].channel :: m == n
    requires ByLabel(TableOf(cat), caption).Some?
    ensures ForChannel(TableOf(cat), Some(ByLabel(TableOf(cat), caption).value.channel)) == caption
  {
    var t := TableOf(cat);
    TableEntries(cat);
    ByLabelMeaning(t, caption);
    var s := ByLabel(t, caption).value;
    FirstOnMeaning(t, s.channel);
  }

  /** A receiver without a channel, or on one nobody carries, shows "none"; any
      other shows the label of a transmitter on its channel. */
  lemma ForChannelMeaning(t: Table, channel: Option<int>)
    ensures channel == None ==> ForChannel(t, channel) == "none"
    ensures channel.Some? && (forall i | 0 <= i < |t| :: t[i].channel != channel.value) ==>
            ForChannel(t, channel) == "none"
    ensures channel.Some? && (exists i | 0 <= i < |t| :: t[i].channel == channel.value) ==>
              exists i | 0 <= i < |t| :: t[i].channel == channel.value && t[i].caption == ForChannel(t, channel)
  {
    if channel.Some? {
      FirstOnMeaning(t, channel.value);
    }
  }

  /** Among transmitters sharing a channel the least label is shown. */
  lemma LeastLabelWins(cat: Catalogue, m: string)
    requires m in cat
    ensures AtMost(ForChannel(TableOf(cat), Some(cat[m].channel)), Label(cat, m))
  {
    var t := TableOf(cat);
    TableEntries(cat);
    var e := Entry(cat, m);
    assert e in t;
    var k :| 0 <= k < |t| && t[k] == e;
    var i := FirstOnIsEarliest(t, k);
    AtMostTotal(e.caption, e.caption);
    assert i < k ==> Before(t[i], t[k]);
  }

  // ----- Building the table -----

  /** One entry per listed transmitter, captioned with its bare display name. */
  ghost predicate Collected(cat: Catalogue, raw: seq<Source>) {
    && (forall i | 0 <= i < |raw| :: raw[i].mac in cat && cat[raw[i].mac] == Tx(raw[i].caption, raw[i].channel))
    && (forall m | m in cat :: exists i | 0 <= i < |raw| :: raw[i].mac == m)
    && (forall i, j | 0 <= i < j < |raw| :: raw[i].mac != raw[j].mac)
  }

  predicate Twice(raw: seq<Source>, name: string) {
    exists i, j | 0 <= i < j < |raw| :: raw[i].caption == name && raw[j].caption == name
  }

  /** Registry.Sources: collect the transmitters, count names, add channels, sort. */
  method BuildTable(r: R.Registry) returns (t: Table)
    requires r.Valid()
    ensures t == TableNow(r.adapters)
  {
    var all := r.All();
    var raw, from := Transmitters(all);
    CollectedAll(r.adapters, all, raw, from);
    t := Arranged(CatalogueOf(r.adapters), raw);
  }

  lemma CollectedAll(reg: R.Inventory, all: seq<Adapter>, raw: seq<Source>, from: seq<nat>)
    requires R.WellKeyed(reg) && R.ByMac(all) && (forall m | m in reg :: reg[m] in all)
    requires forall i | 0 <= i < |all| :: all[i].mac in reg && reg[all[i].mac] == all[i]
    requires |from| == |raw| && forall i, j | 0 <= i < j < |raw| :: from[i] < from[j]
    requires forall i | 0 <= i < |raw| :: from[i] < |all| && Listed(all[from[i]]) && raw[i] == Bare(all[from[i]])
    requires forall k | 0 <= k < |all| && Listed(all[k]) :: k in from
    ensures Collected(CatalogueOf(reg), raw)
  {
    var cat := CatalogueOf(reg);
    forall m | m in cat ensures exists i | 0 <= i < |raw| :: raw[i].mac == m {
      var k :| 0 <= k < |all| && all[k] == reg[m];
      var i :| 0 <= i < |from| && from[i] == k;
      assert raw[i].mac == m;
    }
  }

  /** The table entries of the first n collected transmitters. */
  ghost function Entered(cat: Catalogue, raw: seq<Source>, n: nat): set<Source>
    requires Collected(cat, raw) && n <= |raw|
  {
    set k | 0 <= k < n :: Entry(cat, raw[k].mac)
  }

  lemma EnteredAll(cat: Catalogue, raw: seq<Source>)
    requires Collected(cat, raw)
    ensures Entered(cat, raw, |raw|) == Entries(cat)
  {
    forall m | m in cat ensures Entry(cat, m) in Entered(cat, raw, |raw|) {
      var i :| 0 <= i < |raw| && raw[i].mac == m;
    }
  }

  lemma EnterOne(cat: Catalogue, raw: seq<Source>, i: nat, t: Table)
    requires Collected(cat, raw) && i < |raw| && Ordered(t) && Elements(t) == Entered(cat, raw, i)
    ensures var s := Entry(cat, raw[i].mac);
            Ordered(Insert(t, s)) && Elements(Insert(t, s)) == Entered(cat, raw, i + 1)
  {
    var s := Entry(cat, raw[i].mac);
    forall k | 0 <= k < |t| ensures t[k].mac != s.mac {
      assert t[k] in Elements(t);
    }
    InsertKeepsOrder(t, s);
    assert Entered(cat, raw, i + 1) == Entered(cat, raw, i) + {s};
  }

  method Arranged(ghost cat: Catalogue, raw: seq<Source>) returns (t: Table)
    requires Collected(cat, raw)
    ensures t == TableOf(cat)
  {
    var shared := SharedNames(raw);
    t := [];
    for i := 0 to |raw|
      invariant Ordered(t) && Elements(t) == Entered(cat, raw, i)
    {
      SharedMeansTwice(cat, raw, i);
      var name := raw[i].caption;
      var s := raw[i].(caption := if name in shared then Disambiguated(Tx(name, raw[i].channel)) else name);
      assert s == Entry(cat, raw[i].mac);
      EnterOne(cat, raw, i, t);
      t := Insert(t, s);
    }
    EnteredAll(cat, raw);
    TableEntries(cat);
    OrderedUnique(t, TableOf(cat));
  }

  function Bare(a: Adapter): Source
    requires Listed(a)
  {
    Source(DisplayName(a), a.mac, a.channel.value)
  }

  method Transmitters(all: seq<Adapter>) returns (raw: seq<Source>, ghost from: seq<nat>)
    ensures |from| == |raw|
    ensures forall i | 0 <= i < |raw| :: from[i] < |all| && Listed(all[from[i]]) && raw[i] == Bare(all[from[i]])
    ensures forall i, j | 0 <= i < j < |raw| :: from[i] < from[j]
    ensures forall k | 0 <= k < |all| && Listed(all[k]) :: k in from
  {
    raw, from := [], [];
    for n := 0 to |all|
      invariant |from| == |raw|
      invariant forall i | 0 <= i < |raw| :: from[i] < n && Listed(all[from[i]]) && raw[i] == Bare(all[from[i]])
      invariant forall i, j | 0 <= i < j < |raw| :: from[i] < from[j]
      invariant forall k | 0 <= k < n && Listed(all[k]) :: k in from
    {
      if Listed(all[n]) {
        raw, from := raw + [Bare(all[n])], from + [n];
      }
    }
  }

  /** The names counted more than once. */
  method SharedNames(raw: seq<Source>) returns (shared: set<string>)
    ensures forall i | 0 <= i < |raw| :: raw[i].caption in shared <==> Twice(raw, raw[i].caption)
  {
    var nameCount: map<string, nat> := map[];
    for k := 0 to |raw|
      invariant forall n :: n in nameCount <==> exists i | 0 <= i < k :: raw[i].caption == n
      invariant forall n | n in nameCount :: nameCount[n] >= 1
      invariant forall n | n in nameCount :: nameCount[n] > 1 <==> Twice(raw[..k], n)
    {
      var name := raw[k].caption;
      assert raw[..k + 1] == raw[..k] + [raw[k]];
      forall n | n != name ensures Twice(raw[..k + 1], n) <==> Twice(raw[..k], n) {
        TwiceSnoc(raw[..k], raw[k], n);
      }
      TwiceSnoc(raw[..k], raw[k], name);
      nameCount := nameCount[name := (if name in nameCount then nameCount[name] else 0) + 1];
    }
    assert raw[..|raw|] == raw;
    shared := set n | n in nameCount && nameCount[n] > 1;
  }

  lemma TwiceSnoc(raw: seq<Source>, s: Source, n: string)
    ensures Twice(raw + [s], n) <==>
            Twice(raw, n) || (s.caption == n && exists i | 0 <= i < |raw| :: raw[i].caption == n)
  {
    var longer := raw + [s];
    if Twice(raw, n) {
      var i, j :| 0 <= i < j < |raw| && raw[i].caption == n && raw[j].caption == n;
      assert longer[i].caption == n && longer[j].caption == n;
    }
    if s.caption == n && exists i | 0 <= i < |raw| :: raw[i].caption == n {
      var i :| 0 <= i < |raw| && raw[i].caption == n;
      assert longer[i].caption == n && longer[|raw|].caption == n;
    }
  }

  lemma SharedMeansTwice(cat: Catalogue, raw: seq<Source>, i: nat)
    requires Collected(cat, raw) && i < |raw|
    ensures Shared(cat, raw[i].mac) <==> Twice(raw, raw[i].caption)
  {
    var name := raw[i].caption;
    if Shared(cat, raw[i].mac) {
      var m :| m in cat && m != raw[i].mac && cat[m].name == name;
      var k :| 0 <= k < |raw| && raw[k].mac == m;
      assert raw[k].caption == name;
    }
    if Twice(raw, name) {
      var k, l :| 0 <= k < l < |raw| && raw[k].caption == name && raw[l].caption == name;
      var o := if k == i then l else k;
      assert raw[o].mac != raw[i].mac && cat[raw[o].mac].name == name;
    }
  }

  /** Collisions: exactly the channels with several transmitters, each with all
      of their MACs in table order. */
  method Collisions(t: Table) returns (found: map<int, seq<string>>)
    ensures forall c :: c in found <==> |MacsOn(t, c)| >= 2
    ensures forall c | c in found :: found[c] == MacsOn(t, c)
  {
    var byChannel: map<int, seq<string>> := map[];
    for i := 0 to |t|
      invariant forall c :: c in byChannel <==> MacsOn(t[..i], c) != []
      invariant forall c | c in byChannel :: byChannel[c] == MacsOn(t[..i], c)
    {
      var c := t[i].channel;
      forall d ensures MacsOn(t[..i + 1], d) == MacsOn(t[..i], d) + (if d == c then [t[i].mac] else []) {
        MacsOnSnoc(t[..i], t[i], d);
        assert t[..i + 1] == t[..i] + [t[i]];
      }
      byChannel := byChannel[c := (if c in byChannel then byChannel[c] else []) + [t[i].mac]];
    }
    assert t[..|t|] == t;
    found := map c | c in byChannel && |byChannel[c]| >= 2 :: byChannel[c];
  }

  lemma {:induction false} MacsOnSnoc(t: Table, s: Source, c: int)
    ensures MacsOn(t + [s], c) == MacsOn(t, c) + (if s.channel == c then [s.mac] else [])
  {
    if t != [] {
      MacsOnSnoc(t[1..], s, c);
      assert (t + [s])[1..] == t[1..] + [s];
    } else {
      assert (t + [s])[1..] == [];
    }
  }
}
