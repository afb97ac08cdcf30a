/** MAC address normalisation (internal/mac/mac.go). The MAC is the only
    identity of a unit: it keys the registry, the store and the topics. */
module Mac {

  predicate IsHex(c: char) {
    '0' <= c <= '9' || 'a' <= c <= 'f'
  }

  predicate AllHex(s: string) {
    forall i | 0 <= i < |s| :: IsHex(s[i])
  }

  /** Lower-casing, which is all of strings.ToLower that can produce a hex digit. */
  function Lower(c: char): char {
    if 'A' <= c <= 'Z' then ((c as int) + 32) as char else c
  }

  /** Lower-case, then drop everything that is not a hex digit. Surrounding
      white space needs no separate trim: it is dropped as well. */
  function Strip(raw: string): (s: string)
    ensures AllHex(s)
  {
    if raw == "" then ""
    else (if IsHex(Lower(raw[0])) then [Lower(raw[0])] else "") + Strip(raw[1..])
  }

  /** The characters of s two by two, separated by colons. */
  function Pairs(s: string): string {
    if |s| <= 2 then s else s[..2] + ":" + Pairs(s[2..])
  }

  /** The canonical colon form, or "" when raw is not a MAC address. */
  function Normalize(raw: string): string {
    if |Strip(raw)| == 12 then Pairs(Strip(raw)) else ""
  }

  /** Normalised and not the "no address" answer. */
  predicate IsMac(m: string) {
    m != "" && Normalize(m) == m
  }

  function Compact(m: string): string {
    if m == "" then "" else (if m[0] == ':' then "" else [m[0]]) + Compact(m[1..])
  }

  /** The stable Home Assistant object-id prefix for a MAC. */
  function AdapterID(m: string): string {
    "dt241m_" + Compact(m)
  }

  lemma {:induction false} StripAppend(a: string, b: string)
    ensures Strip(a + b) == Strip(a) + Strip(b)
  {
    if a == "" {
      assert a + b == b;
    } else {
      StripAppend(a[1..], b);
      assert (a + b)[1..] == a[1..] + b;
      var head := if IsHex(Lower(a[0])) then [Lower(a[0])] else "";
      assert Strip(a + b) == head + Strip(a[1..] + b);
      assert head + (Strip(a[1..]) + Strip(b)) == head + Strip(a[1..]) + Strip(b);
    }
  }

  lemma {:induction false} CompactAppend(a: string, b: string)
    ensures Compact(a + b) == Compact(a) + Compact(b)
  {
    if a == "" {
      assert a + b == b;
    } else {
      CompactAppend(a[1..], b);
      assert (a + b)[1..] == a[1..] + b;
      var head := if a[0] == ':' then "" else [a[0]];
      assert Compact(a + b) == head + Compact(a[1..] + b);
      assert head + (Compact(a[1..]) + Compact(b)) == head + Compact(a[1..]) + Compact(b);
    }
  }

  lemma {:induction false} StripHex(s: string)
    requires AllHex(s)
    ensures Strip(s) == s && Compact(s) == s
  {
    if s != "" {
      StripHex(s[1..]);
    }
  }

  lemma StripColon(rest: string)
    ensures Strip(":" + rest) == Strip(rest)
  {
    assert (":" + rest)[0] == ':' && (":" + rest)[1..] == rest;
  }

  lemma CompactColon(rest: string)
    ensures Compact(":" + rest) == Compact(rest)
  {
    assert (":" + rest)[0] == ':' && (":" + rest)[1..] == rest;
  }

  lemma StripPair(pair: string, rest: string)
    requires AllHex(pair)
    ensures Strip(pair + (":" + rest)) == pair + Strip(rest)
  {
    StripHex(pair);
    StripColon(rest);
    StripAppend(pair, ":" + rest);
  }

  lemma CompactPair(pair: string, rest: string)
    requires AllHex(pair)
    ensures Compact(pair + (":" + rest)) == pair + Compact(rest)
  {
    StripHex(pair);
    CompactColon(rest);
    CompactAppend(pair, ":" + rest);
  }

  /** Both Strip and Compact undo Pairs. */
  lemma {:induction false} PairsUndone(s: string)
    requires AllHex(s)
    ensures Strip(Pairs(s)) == s && Compact(Pairs(s)) == s
  {
    if |s| <= 2 {
      StripHex(s);
    } else {
      PairsUndone(s[2..]);
      StripPair(s[..2], Pairs(s[2..]));
      CompactPair(s[..2], Pairs(s[2..]));
      assert Pairs(s) == s[..2] + (":" + Pairs(s[2..]));
      assert s == s[..2] + s[2..];
    }
  }

  /** Normalising is idempotent: its answer is "" or a fixed point. */
  lemma NormalizeIdempotent(raw: string)
    ensures Normalize(raw) == "" || IsMac(Normalize(raw))
  {
    if |Strip(raw)| == 12 {
      PairsUndone(Strip(raw));
    }
  }

  /** Compact is twelve hex digits and Normalize undoes it. */
  lemma CompactRoundTrip(m: string)
    requires IsMac(m)
    ensures |Compact(m)| == 12 && AllHex(Compact(m))
    ensures Normalize(Compact(m)) == m
  {
    PairsUndone(Strip(m));
    StripHex(Strip(m));
  }

  /** Conversely, any twelve hex digits are the compact form of one MAC. */
  lemma HexIsCompact(s: string)
    requires |s| == 12 && AllHex(s)
    ensures IsMac(Normalize(s)) && Compact(Normalize(s)) == s
  {
    StripHex(s);
    PairsUndone(s);
  }

  /** Distinct MACs have distinct compact forms, hence distinct ids. */
  lemma CompactInjective(m: string, n: string)
    requires IsMac(m) && IsMac(n) && Compact(m) == Compact(n)
    ensures m == n
  {
    CompactRoundTrip(m);
    CompactRoundTrip(n);
  }

  // ----- Which texts are MACs, and of which -----

  predicate HexInEitherCase(c: char) {
    '0' <= c <= '9' || 'a' <= c <= 'f' || 'A' <= c <= 'F'
  }

  /** The hex digits of a text, in either case, in order. */
  function HexDigitsOf(raw: string): string {
    if raw == "" then "" else (if HexInEitherCase(raw[0]) then [raw[0]] else "") + HexDigitsOf(raw[1..])
  }

  /** A hex digit in lower case. */
  function LowerDigit(c: char): char {
    match c
    case 'A' => 'a'
    case 'B' => 'b'
    case 'C' => 'c'
    case 'D' => 'd'
    case 'E' => 'e'
    case 'F' => 'f'
    case _ => c
  }

  lemma LowerHexDigit(c: char)
    ensures IsHex(Lower(c)) <==> HexInEitherCase(c)
    ensures HexInEitherCase(c) ==> Lower(c) == LowerDigit(c)
  {
  }

  lemma {:induction false} StripIsHexDigits(raw: string)
    ensures |Strip(raw)| == |HexDigitsOf(raw)|
    ensures forall k | 0 <= k < |Strip(raw)| :: Strip(raw)[k] == LowerDigit(HexDigitsOf(raw)[k])
  {
    if raw != "" {
      LowerHexDigit(raw[0]);
      StripIsHexDigits(raw[1..]);
    }
  }

  /** Where the characters of s are in Pairs(s). */
  lemma {:induction false} PairsAt(s: string)
    requires |s| > 0 && |s| % 2 == 0
    ensures |Pairs(s)| == |s| + |s| / 2 - 1
    ensures forall k | 0 <= k < |s| :: Pairs(s)[3 * (k / 2) + k % 2] == s[k]
    ensures forall j | 0 <= j < |s| / 2 - 1 :: Pairs(s)[3 * j + 2] == ':'
  {
    if |s| > 2 {
      var rest := s[2..];
      PairsAt(rest);
      assert Pairs(s) == s[..2] + ":" + Pairs(rest);
      forall k | 2 <= k < |s| ensures Pairs(s)[3 * (k / 2) + k % 2] == s[k] {
        assert s[k] == rest[k - 2];
        assert 3 * (k / 2) + k % 2 == 3 + (3 * ((k - 2) / 2) + (k - 2) % 2);
      }
      forall j | 1 <= j < |s| / 2 - 1 ensures Pairs(s)[3 * j + 2] == ':' {
        assert Pairs(rest)[3 * (j - 1) + 2] == ':';
      }
    }
  }

  /** A text is a MAC if and only if it has exactly twelve hex digits, in either
      case and whatever stands around them; and then its canonical form has those
      digits, in order and in lower case, in pairs between colons. */
  lemma NormalizeMeaning(raw: string)
    ensures Normalize(raw) != "" <==> |HexDigitsOf(raw)| == 12
    ensures Normalize(raw) != "" ==>
              && |Normalize(raw)| == 17
              && (forall k | 0 <= k < 12 :: Normalize(raw)[3 * (k / 2) + k % 2] == LowerDigit(HexDigitsOf(raw)[k]))
              && (forall j | 0 <= j < 5 :: Normalize(raw)[3 * j + 2] == ':')
  {
    StripIsHexDigits(raw);
    if |Strip(raw)| == 12 {
      PairsAt(Strip(raw));
    }
  }

  /** Every spelling of a MAC, and nothing else, normalises to it. */
  lemma SpellingsOf(raw: string, m: string)
    requires IsMac(m)
    ensures |Compact(m)| == 12
    ensures Normalize(raw) == m <==>
            |HexDigitsOf(raw)| == 12 && forall k | 0 <= k < 12 :: LowerDigit(HexDigitsOf(raw)[k]) == Compact(m)[k]
  {
    StripIsHexDigits(raw);
    CompactRoundTrip(m);
    var digits := Compact(m);
    StripHex(digits);
    if |Strip(raw)| == 12 {
      PairsUndone(Strip(raw));
      PairsUndone(digits);
      if forall k | 0 <= k < 12 :: LowerDigit(HexDigitsOf(raw)[k]) == digits[k] {
        assert Strip(raw) == digits;
      }
    }
  }

  /** The loop of Normalize: pairs are appended one at a time, then joined. */
  method NormalizeByPairs(raw: string) returns (r: string)
    ensures r == Normalize(raw)
  {
    var compact := Strip(raw);
    if |compact| != 12 {
      return "";
    }
    var i := 0;
    r := "";
    while i < 12
      invariant 0 <= i <= 12 && i % 2 == 0
      invariant i == 0 ==> r == ""
      invariant Pairs(compact) ==
                if i == 0 then Pairs(compact[i..]) else if i < 12 then r + ":" + Pairs(compact[i..]) else r
    {
      assert compact[i..][..2] == compact[i..i + 2];
      assert compact[i..][2..] == compact[i + 2..];
      r := if i == 0 then compact[i..i + 2] else r + ":" + compact[i..i + 2];
      i := i + 2;
    }
  }
}
