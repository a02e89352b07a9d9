/** Trimming, lower-casing and decimal numbers, as the services use them on strings. */
module Text {
  import opened Basics

  // ---------- TrimSpace and ToLower ----------

  /** Unicode's White_Space property. */
  predicate IsSpace(c: char) {
    c == ' ' || '\t' <= c <= '\r' || c == '\U{85}' || c == '\U{A0}' || c == '\U{1680}' ||
    '\U{2000}' <= c <= '\U{200A}' || c == '\U{2028}' || c == '\U{2029}' || c == '\U{202F}' || c == '\U{205F}' ||
      c == '\U{3000}'
  }

  function TrimLeft(s: string): string {
    if s != [] && IsSpace(s[0]) then TrimLeft(s[1..]) else s
  }

  function TrimRight(s: string): string {
    if s != [] && IsSpace(s[|s| - 1]) then TrimRight(s[..|s| - 1]) else s
  }

  function TrimSpace(s: string): string {
    TrimRight(TrimLeft(s))
  }

  predicate Trimmed(s: string) {
    s == [] || (!IsSpace(s[0]) && !IsSpace(s[|s| - 1]))
  }

  lemma {:induction false} TrimRightEnds(s: string)
    ensures var t := TrimRight(s);
            t <= s && (t == [] || !IsSpace(t[|t| - 1]))
  {
    if s != [] && IsSpace(s[|s| - 1]) {
      TrimRightEnds(s[..|s| - 1]);
    }
  }

  lemma {:induction false} TrimLeftStarts(s: string)
    ensures var t := TrimLeft(s);
            t == [] || !IsSpace(t[0])
  {
    if s != [] && IsSpace(s[0]) {
      TrimLeftStarts(s[1..]);
    }
  }

  lemma TrimSpaceTrims(s: string)
    ensures Trimmed(TrimSpace(s))
    ensures Trimmed(s) ==> TrimSpace(s) == s
  {
    TrimLeftStarts(s);
    TrimRightEnds(TrimLeft(s));
  }

  predicate AllSpace(s: string) {
    forall c :: c in s ==> IsSpace(c)
  }

  lemma {:induction false} TrimLeftCuts(s: string) returns (front: string)
    ensures s == front + TrimLeft(s) && AllSpace(front)
  {
    front := "";
    if s != [] && IsSpace(s[0]) {
      front := TrimLeftCuts(s[1..]);
      front := [s[0]] + front;
    }
  }

  lemma {:induction false} TrimRightCuts(s: string) returns (back: string)
    ensures s == TrimRight(s) + back && AllSpace(back)
  {
    back := "";
    if s != [] && IsSpace(s[|s| - 1]) {
      back := TrimRightCuts(s[..|s| - 1]);
      back := back + [s[|s| - 1]];
    }
  }

  lemma {:induction false} TrimLeftDrops(front: string, t: string)
    requires AllSpace(front) && (t == "" || !IsSpace(t[0]))
    ensures TrimLeft(front + t) == t
  {
    if front != "" {
      assert IsSpace(front[0]) && (front + t)[1..] == front[1..] + t;
      TrimLeftDrops(front[1..], t);
    } else {
      assert front + t == t;
    }
  }

  lemma {:induction false} TrimRightDrops(t: string, back: string)
    requires AllSpace(back) && (t == "" || !IsSpace(t[|t| - 1]))
    ensures TrimRight(t + back) == t
  {
    if back != "" {
      var last := |back| - 1;
      assert IsSpace(back[last]) && (t + back)[..|t + back| - 1] == t + back[..last];
      TrimRightDrops(t, back[..last]);
    } else {
      assert t + back == t;
    }
  }

  /** s is t with spaces around it. */
  ghost predicate Surrounds(s: string, front: string, t: string, back: string) {
    s == front + t + back && AllSpace(front) && AllSpace(back)
  }

  lemma OnlyOneIsTrimmed(s: string, front: string, t: string, back: string)
    requires Surrounds(s, front, t, back) && Trimmed(t)
    ensures TrimSpace(s) == t
  {
    if t == "" {
      assert s == (front + back) + "";
      TrimLeftDrops(front + back, "");
    } else {
      assert s == front + (t + back);
      TrimLeftDrops(front, t + back);
      TrimRightDrops(t, back);
    }
  }

  /** Trimming gives the one trimmed string that has only spaces around it. */
  lemma TrimSpaceIff(s: string, t: string)
    ensures TrimSpace(s) == t <==> Trimmed(t) && exists front, back :: Surrounds(s, front, t, back)
  {
    if TrimSpace(s) == t {
      TrimSpaceTrims(s);
      var front := TrimLeftCuts(s);
      var back := TrimRightCuts(TrimLeft(s));
      assert Surrounds(s, front, t, back);
    } else if Trimmed(t) {
      forall front, back ensures !Surrounds(s, front, t, back) {
        if Surrounds(s, front, t, back) {
          OnlyOneIsTrimmed(s, front, t, back);
        }
      }
    }
  }

  /** The 25 code points of White_Space. */
  lemma SpacesAre(c: char)
    ensures IsSpace(c) <==>
              c as int in {9, 10, 11, 12, 13, 32, 133, 160, 5760, 8192, 8193, 8194, 8195, 8196, 8197, 8198, 8199, 8200,
                           8201, 8202, 8232, 8233, 8239, 8287, 12288}
  {
  }

  /** Letter case beyond ASCII is left alone. */
  function LowerChar(c: char): char {
    if 'A' <= c <= 'Z' then c - 'A' + 'a' else c
  }

  function ToLower(s: string): string {
    seq(|s|, i requires 0 <= i < |s| => LowerChar(s[i]))
  }

  /** No capital is left, capitals have moved by 32 places, and everything else is as it was. */
  lemma ToLowerFacts(s: string)
    ensures |ToLower(s)| == |s|
    ensures forall i :: 0 <= i < |s| ==>
              && !('A' <= ToLower(s)[i] <= 'Z')
              && (ToLower(s)[i] == s[i] || ('A' <= s[i] <= 'Z' && ToLower(s)[i] as int == s[i] as int + 32))
    ensures ToLower(ToLower(s)) == ToLower(s)
    ensures Trimmed(s) ==> Trimmed(ToLower(s))
  {
  }

  // ---------- Cutting at a character ----------

  /** What is before and after the first such character. */
  function Cut(s: string, c: char): Option<(string, string)> {
    if s == [] then None
    else if s[0] == c then Some(("", s[1..]))
    else
      var rest := Cut(s[1..], c);
      if rest.None? then None else Some(([s[0]] + rest.value.0, rest.value.1))
  }

  lemma {:induction false} CutAtFirst(s: string, c: char)
    ensures Cut(s, c).None? <==> c !in s
    ensures Cut(s, c).Some? ==> s == Cut(s, c).value.0 + [c] + Cut(s, c).value.1 && c !in Cut(s, c).value.0
  {
    if s != [] && s[0] != c {
      CutAtFirst(s[1..], c);
      assert s == [s[0]] + s[1..];
    }
  }

  lemma {:induction false} CutJoined(front: string, rest: string, c: char)
    requires c !in front
    ensures Cut(front + [c] + rest, c) == Some((front, rest))
  {
    var s := front + [c] + rest;
    if front == [] {
      assert s[1..] == rest;
    } else {
      CutJoined(front[1..], rest, c);
      assert s[1..] == front[1..] + [c] + rest;
      assert [s[0]] + front[1..] == front;
    }
  }

  // ---------- Decimal numbers ----------

  predicate IsDigit(c: char) {
    '0' <= c <= '9'
  }

  function DigitValue(c: char): nat
    requires IsDigit(c)
  {
    (c - '0') as nat
  }

  function Digit(d: nat): char
    requires d < 10
  {
    '0' + d as char
  }

  function DecNat(n: nat): string {
    if n < 10 then [Digit(n)] else DecNat(n / 10) + [Digit(n % 10)]
  }

  /** strconv.FormatInt in base 10, and %d. */
  function Dec(n: int): string {
    if n < 0 then "-" + DecNat(-n) else DecNat(n)
  }

  /** The value of a string of digits; None if there is none or another character among them. */
  function DigitsValue(s: string): Option<nat> {
    if s == [] || !IsDigit(s[|s| - 1]) then None
    else if |s| == 1 then Some(DigitValue(s[0]))
    else
      var front := DigitsValue(s[..|s| - 1]);
      if front.None? then None else Some(10 * front.value + DigitValue(s[|s| - 1]))
  }

  const MAX_INT64 := 0x7FFF_FFFF_FFFF_FFFF
  const MIN_INT64 := -0x8000_0000_0000_0000

  predicate Int64(n: int) {
    MIN_INT64 <= n <= MAX_INT64
  }

  lemma Int64Range(n: int)
    ensures Int64(n) <==> -9223372036854775808 <= n <= 9223372036854775807
  {
  }

  /** strconv.ParseInt(s, 10, 64), its errors told apart no further. */
  function ParseInt(s: string): Option<int> {
    var signed := s != [] && (s[0] == '-' || s[0] == '+');
    var magnitude := DigitsValue(if signed then s[1..] else s);
    if magnitude.None? then None
    else
      var n := if signed && s[0] == '-' then -(magnitude.value as int) else magnitude.value;
      if Int64(n) then Some(n) else None
  }

  lemma {:induction false} DecNatValue(n: nat)
    ensures DigitsValue(DecNat(n)) == Some(n)
    ensures DecNat(n) != [] && forall c :: c in DecNat(n) ==> IsDigit(c)
  {
    if n >= 10 {
      DecNatValue(n / 10);
      assert DecNat(n)[..|DecNat(n)| - 1] == DecNat(n / 10);
    }
  }

  /** One more digit on the right. */
  lemma DecNatGrows(n: nat, d: nat)
    requires n > 0 && d < 10
    ensures DecNat(10 * n + d) == DecNat(n) + [Digit(d)]
  {
  }

  /** All ten digits, in their places. */
  lemma DigitsInOrder()
    ensures DecNat(1234567890) == "1234567890"
  {
    DecNatGrows(1, 2);
    DecNatGrows(12, 3);
    DecNatGrows(123, 4);
    DecNatGrows(1234, 5);
    DecNatGrows(12345, 6);
    DecNatGrows(123456, 7);
    DecNatGrows(1234567, 8);
    DecNatGrows(12345678, 9);
    DecNatGrows(123456789, 0);
  }

  /** One sign may stand in front, zeros may, and nothing else. */
  lemma SignsAndZeros()
    ensures ParseInt("+7") == Some(7) && ParseInt("-7") == Some(-7) && ParseInt("07") == Some(7)
    ensures Dec(0) == "0" && Dec(7) == "7" && Dec(-7) == "-7"
    ensures ParseInt("") == ParseInt("-") == ParseInt("7x") == ParseInt(" 7") == ParseInt("+-7") == None
  {
  }

  /** Printing and parsing back gives every int64 again, and nothing beyond. */
  lemma DecimalRoundTrip(n: int)
    ensures ParseInt(Dec(n)) == if Int64(n) then Some(n) else None
  {
    if n < 0 {
      DecNatValue(-n);
      assert Dec(n)[1..] == DecNat(-n);
    } else {
      DecNatValue(n);
      assert DecNat(n)[0] in DecNat(n);
    }
  }

  lemma DecInjective(a: nat, b: nat)
    requires DecNat(a) == DecNat(b)
    ensures a == b
  {
    DecNatValue(a);
    DecNatValue(b);
  }

  /** The number printed after a prefix; 0 if there is none. */
  function NumberAfter(prefix: string, s: string): nat {
    var n := DigitsValue(if prefix <= s then s[|prefix|..] else "");
    if n.Some? then n.value else 0
  }

  lemma NumberAfterPrefix(prefix: string, n: nat)
    ensures NumberAfter(prefix, prefix + DecNat(n)) == n
  {
    DecNatValue(n);
    assert (prefix + DecNat(n))[|prefix|..] == DecNat(n);
  }

  /** Two ids with the same prefix and different numbers differ. */
  lemma NumberedDiffer(prefix: string, a: nat, b: nat)
    requires a != b
    ensures prefix + DecNat(a) != prefix + DecNat(b)
  {
    NumberAfterPrefix(prefix, a);
    NumberAfterPrefix(prefix, b);
  }
}
