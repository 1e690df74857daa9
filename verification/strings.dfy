/**
 * The string operations the app borrows from Foundation, written out on
 * `seq<char>`: `range(of:)`, `components(separatedBy:)` for a string and for
 * a character set, `replacingOccurrences(of:with:)`, `String(Int)` and
 * `Int(String)`. Swift compares strings by extended grapheme clusters; the
 * model works on single characters, which agrees for the ASCII placeholders
 * the app searches for.
 */
module Strings {

  datatype Option<T> = None | Some(value: T)

  /** `tok` occurs in `s` starting at position `i`. */
  predicate OccursAt(s: string, tok: string, i: nat)
  {
    i + |tok| <= |s| && s[i..i + |tok|] == tok
  }

  /** `tok` occurs nowhere in `s`. */
  predicate Absent(s: string, tok: string)
  {
    forall i: nat :: i + |tok| <= |s| ==> !OccursAt(s, tok, i)
  }

  function FirstIndexFrom(s: string, tok: string, k: nat): (r: Option<nat>)
    requires tok != []
    ensures r.Some? ==> k <= r.value && OccursAt(s, tok, r.value)
    ensures forall j: nat :: k <= j && (r.None? || j < r.value) ==> !OccursAt(s, tok, j)
    decreases |s| - k
  {
    if k + |tok| > |s| then None
    else if OccursAt(s, tok, k) then Some(k)
    else FirstIndexFrom(s, tok, k + 1)
  }

  /** `s.range(of: tok)`: the position of the leftmost occurrence of `tok`. */
  function FirstIndex(s: string, tok: string): (r: Option<nat>)
    requires tok != []
    ensures r.Some? ==> OccursAt(s, tok, r.value)
    ensures r.Some? ==> forall j: nat :: j < r.value ==> !OccursAt(s, tok, j)
    ensures r.None? <==> Absent(s, tok)
  {
    FirstIndexFrom(s, tok, 0)
  }

  /** `s.components(separatedBy: tok)`, splitting left to right at non-overlapping occurrences. */
  function Split(s: string, tok: string): (parts: seq<string>)
    requires tok != []
    ensures |parts| >= 1
    decreases |s|
  {
    if |s| < |tok| then [s]
    else if s[..|tok|] == tok then [""] + Split(s[|tok|..], tok)
    else
      var rest := Split(s[1..], tok);
      [[s[0]] + rest[0]] + rest[1..]
  }

  /**
   * Concatenates `parts`, putting between consecutive parts the next unused
   * filler, or `sep` once the fillers are used up; surplus fillers are ignored.
   */
  function Fill(parts: seq<string>, fillers: seq<string>, sep: string): string
    decreases |parts|
  {
    if |parts| == 0 then ""
    else if |parts| == 1 then parts[0]
    else if fillers == [] then parts[0] + sep + Fill(parts[1..], [], sep)
    else parts[0] + fillers[0] + Fill(parts[1..], fillers[1..], sep)
  }

  /** `parts.joined(separator: sep)`. */
  function Join(parts: seq<string>, sep: string): string
  {
    Fill(parts, [], sep)
  }

  /** `s.replacingOccurrences(of: tok, with: rep)`. */
  function ReplaceAll(s: string, tok: string, rep: string): string
    requires tok != []
    decreases |s|
  {
    if |s| < |tok| then s
    else if s[..|tok|] == tok then rep + ReplaceAll(s[|tok|..], tok, rep)
    else [s[0]] + ReplaceAll(s[1..], tok, rep)
  }

  /** Splitting at `tok` and joining with `tok` gives back the string. */
  lemma {:induction false} JoinSplit(s: string, tok: string)
    requires tok != []
    ensures Join(Split(s, tok), tok) == s
    decreases |s|
  {
    if |s| < |tok| {
    } else if s[..|tok|] == tok {
      JoinSplit(s[|tok|..], tok);
      JoinLeadingEmpty(Split(s[|tok|..], tok), tok);
      Rejoin(s, |tok|);
    } else {
      JoinSplit(s[1..], tok);
      JoinPrepend(s[0], Split(s[1..], tok), tok);
      RejoinHead(s);
    }
  }

  lemma Rejoin<T>(s: seq<T>, k: nat)
    requires k <= |s|
    ensures s == s[..k] + s[k..]
  {
  }

  lemma RejoinHead<T>(s: seq<T>)
    requires s != []
    ensures s == [s[0]] + s[1..]
  {
  }

  /** An empty first part puts one separator in front of the joined rest. */
  lemma JoinLeadingEmpty(parts: seq<string>, sep: string)
    requires |parts| >= 1
    ensures Join([""] + parts, sep) == sep + Join(parts, sep)
  {
    assert ([""] + parts)[1..] == parts;
  }

  /** Putting a character in front of the first part puts it in front of the joined string. */
  lemma JoinPrepend(c: char, parts: seq<string>, sep: string)
    requires |parts| >= 1
    ensures Join([[c] + parts[0]] + parts[1..], sep) == [c] + Join(parts, sep)
  {
    var ps := [[c] + parts[0]] + parts[1..];
    assert ps[1..] == parts[1..];
    if |parts| > 1 {
      assert Join(ps, sep) == ps[0] + sep + Join(parts[1..], sep);
      assert Join(parts, sep) == parts[0] + sep + Join(parts[1..], sep);
    }
  }

  /** Replacing every occurrence is splitting at the token and joining with the replacement. */
  lemma {:induction false} ReplaceAllIsJoin(s: string, tok: string, rep: string)
    requires tok != []
    ensures ReplaceAll(s, tok, rep) == Join(Split(s, tok), rep)
    decreases |s|
  {
    if |s| < |tok| {
    } else if s[..|tok|] == tok {
      ReplaceAllIsJoin(s[|tok|..], tok, rep);
    } else {
      ReplaceAllIsJoin(s[1..], tok, rep);
      var rest := Split(s[1..], tok);
      if |rest| > 1 {
        assert Join(rest, rep) == rest[0] + rep + Join(rest[1..], rep);
      }
    }
  }

  /** A string without the token is a single component. */
  lemma {:induction false} SplitAbsent(s: string, tok: string)
    requires tok != []
    requires Absent(s, tok)
    ensures Split(s, tok) == [s]
    decreases |s|
  {
    if |s| < |tok| {
    } else {
      assert !OccursAt(s, tok, 0);
      assert s[..|tok|] != tok;
      forall i: nat | i + |tok| <= |s| - 1 ensures !OccursAt(s[1..], tok, i) {
        assert s[1..][i..i + |tok|] == s[i + 1..i + 1 + |tok|];
        assert !OccursAt(s, tok, i + 1);
      }
      SplitAbsent(s[1..], tok);
      assert s == [s[0]] + s[1..];
    }
  }

  /** Replacing a token that does not occur changes nothing. */
  lemma ReplaceAllAbsent(s: string, tok: string, rep: string)
    requires tok != []
    requires Absent(s, tok)
    ensures ReplaceAll(s, tok, rep) == s
  {
    ReplaceAllIsJoin(s, tok, rep);
    SplitAbsent(s, tok);
  }

  // ---------------------------------------------------------------------
  // Character sets

  /** `s.components(separatedBy: seps)` for a character set: every separator character ends a component. */
  function SplitChars(s: string, seps: set<char>): (parts: seq<string>)
    ensures |parts| >= 1
  {
    if |s| == 0 then [""]
    else
      var rest := SplitChars(s[1..], seps);
      if s[0] in seps then [""] + rest
      else [[s[0]] + rest[0]] + rest[1..]
  }

  /** The characters of `s` outside `seps`, in order. */
  function Without(s: string, seps: set<char>): (r: string)
    ensures forall c :: c in r ==> c in s && c !in seps
    ensures forall c :: c in s && c !in seps ==> c in r
  {
    if |s| == 0 then ""
    else if s[0] in seps then Without(s[1..], seps)
    else [s[0]] + Without(s[1..], seps)
  }

  /** Concatenation of a sequence of strings. */
  function Concat(parts: seq<string>): string
  {
    if |parts| == 0 then "" else parts[0] + Concat(parts[1..])
  }

  lemma {:induction false} ConcatAppend(a: seq<string>, b: seq<string>)
    ensures Concat(a + b) == Concat(a) + Concat(b)
  {
    if |a| == 0 {
      assert a + b == b;
    } else {
      ConcatAppend(a[1..], b);
      HeadAppend(a, b);
      ConcatCons(a[0], a[1..] + b);
      AppendAssoc(a[0], Concat(a[1..]), Concat(b));
    }
  }

  lemma HeadAppend<T>(a: seq<T>, b: seq<T>)
    requires |a| > 0
    ensures a + b == [a[0]] + (a[1..] + b)
  {
  }

  lemma AppendAssoc<T>(x: seq<T>, y: seq<T>, z: seq<T>)
    ensures x + (y + z) == (x + y) + z
  {
  }

  lemma ConcatCons(p: string, ps: seq<string>)
    ensures Concat([p] + ps) == p + Concat(ps)
  {
    assert ([p] + ps)[1..] == ps;
  }

  /** No component holds a separator, and together they are the string with its separators removed. */
  lemma {:induction false} SplitCharsConcat(s: string, seps: set<char>)
    ensures Concat(SplitChars(s, seps)) == Without(s, seps)
    ensures forall k :: 0 <= k < |SplitChars(s, seps)| ==> forall c :: c in SplitChars(s, seps)[k] ==> c !in seps
    ensures |SplitChars(s, seps)| == 1 + Occurrences(s, seps)
  {
    if |s| > 0 {
      SplitCharsConcat(s[1..], seps);
      var rest := SplitChars(s[1..], seps);
      if s[0] !in seps {
        var parts := [[s[0]] + rest[0]] + rest[1..];
        ConcatCons([s[0]] + rest[0], rest[1..]);
        HeadAppend(rest, []);
        ConcatCons(rest[0], rest[1..]);
        AppendAssoc([s[0]], rest[0], Concat(rest[1..]));
        assert forall k :: 1 <= k < |parts| ==> parts[k] == rest[k];
      } else {
        var parts := [""] + rest;
        ConcatCons("", rest);
        assert forall k :: 1 <= k < |parts| ==> parts[k] == rest[k - 1];
      }
    }
  }

  /** Number of characters of `s` that lie in `seps`. */
  function Occurrences(s: string, seps: set<char>): (n: nat)
    ensures n <= |s|
  {
    if |s| == 0 then 0 else (if s[0] in seps then 1 else 0) + Occurrences(s[1..], seps)
  }

  /** Deleting characters keeps the others in order and shortens the string by their count. */
  lemma {:induction false} WithoutLength(s: string, seps: set<char>)
    ensures |Without(s, seps)| == |s| - Occurrences(s, seps)
  {
    if |s| > 0 {
      WithoutLength(s[1..], seps);
    }
  }

  /** Replacing a one-character string by nothing deletes that character. */
  lemma {:induction false} ReplaceCharIsWithout(s: string, c: char)
    ensures ReplaceAll(s, [c], "") == Without(s, {c})
  {
    if |s| > 0 {
      ReplaceCharIsWithout(s[1..], c);
      assert s[..1] == [s[0]];
      assert s[1..] == s[|[c]|..];
    }
  }

  lemma {:induction false} WithoutWithout(s: string, a: set<char>, b: set<char>)
    ensures Without(Without(s, a), b) == Without(s, a + b)
  {
    if |s| > 0 {
      WithoutWithout(s[1..], a, b);
    }
  }

  lemma {:induction false} WithoutNothing(s: string, seps: set<char>)
    requires forall c :: c in s ==> c !in seps
    ensures Without(s, seps) == s
  {
    if |s| > 0 {
      assert s[0] in s;
      assert forall c :: c in s[1..] ==> c in s;
      WithoutNothing(s[1..], seps);
      assert s == [s[0]] + s[1..];
    }
  }

  // ---------------------------------------------------------------------
  // Decimal numbers

  function DigitChar(d: nat): (c: char)
    requires d < 10
    ensures '0' <= c <= '9'
  {
    ('0' as int + d) as char
  }

  predicate IsDigit(c: char)
  {
    '0' <= c <= '9'
  }

  function DigitValue(c: char): (d: nat)
    requires IsDigit(c)
    ensures d < 10
  {
    c as int - '0' as int
  }

  /** The decimal digits of `n`, without leading zeros. */
  function NatString(n: nat): (s: string)
    ensures |s| >= 1
    ensures forall c :: c in s ==> IsDigit(c)
  {
    if n < 10 then [DigitChar(n)] else NatString(n / 10) + [DigitChar(n % 10)]
  }

  /** `String(n)` for an `Int`. */
  function DecimalString(n: int): (s: string)
    ensures |s| >= 1
    ensures forall c :: c in s ==> IsDigit(c) || c == '-'
  {
    if n < 0 then "-" + NatString(-n) else NatString(n)
  }

  /** Value of a string of decimal digits. */
  function DigitsValue(s: string): nat
    requires forall c :: c in s ==> IsDigit(c)
  {
    if |s| == 0 then 0
    else
      assert forall c :: c in s[..|s| - 1] ==> c in s;
      DigitsValue(s[..|s| - 1]) * 10 + DigitValue(s[|s| - 1])
  }

  const IntMin: int := -0x8000_0000_0000_0000
  const IntMax: int := 0x7FFF_FFFF_FFFF_FFFF

  /**
   * `Int(s)`: an optional sign followed by at least one decimal digit, and a
   * value inside the 64-bit range; anything else gives nil.
   */
  function ParseInt(s: string): (r: Option<int>)
    ensures r.Some? ==> IntMin <= r.value <= IntMax
    ensures s == [] ==> r.None?
  {
    var neg := |s| > 0 && s[0] == '-';
    var digits := if |s| > 0 && (s[0] == '-' || s[0] == '+') then s[1..] else s;
    if |digits| == 0 || exists c :: c in digits && !IsDigit(c) then None
    else
      var d: int := DigitsValue(digits);
      var v := if neg then -d else d;
      if IntMin <= v <= IntMax then Some(v) else None
  }

  lemma {:induction false} DigitsOfNatString(n: nat)
    ensures DigitsValue(NatString(n)) == n
  {
    if n >= 10 {
      DigitsOfNatString(n / 10);
      var s := NatString(n);
      assert s[..|s| - 1] == NatString(n / 10);
    }
  }

  /** Reading back the decimal string of a 64-bit integer gives the integer. */
  lemma DecimalRoundTrip(n: int)
    requires IntMin <= n <= IntMax
    ensures ParseInt(DecimalString(n)) == Some(n)
  {
    if n < 0 {
      DigitsOfNatString(-n);
      assert DecimalString(n)[1..] == NatString(-n);
    } else {
      DigitsOfNatString(n);
      var s := NatString(n);
      assert s[0] in s;
    }
  }
}
