/**
 * `Event`: a blueprint made concrete. `Event.init` draws the number from
 * the blueprint's range and takes the first N names of a shuffled roster,
 * N being the number of `[player]` placeholders; the `text` getter puts the
 * names in, then the number.
 */
module Events {
  import opened Strings
  import opened Blueprints

  const PlayerToken: string := "[player]"
  const NumberToken: string := "[number]"

  datatype Event<K> = Event(blueprint: Blueprint<K>, randomNumber: Option<int>, players: seq<string>)
  {
    /**
     * The `text` getter: while the text still holds a `[player]` and names
     * are left, replace the leftmost `[player]` with the next name; then
     * replace every `[number]` with the drawn number, if there is one.
     */
    method Text() returns (text: string)
      ensures text == Rendered(this)
    {
      text := blueprint.text;
      var names := players;
      var found := FirstIndex(text, PlayerToken);
      while found.Some?
        invariant found == FirstIndex(text, PlayerToken)
        invariant SubstituteAsWritten(text, names) == SubstituteAsWritten(blueprint.text, players)
        decreases |names|
      {
        if names == [] {
          break;
        }
        var i := found.value;
        text := text[..i] + names[0] + text[i + |PlayerToken|..];
        names := names[1..];
        found := FirstIndex(text, PlayerToken);
      }
      if randomNumber.Some? {
        text := ReplaceAll(text, NumberToken, DecimalString(randomNumber.value));
      }
    }
  }

  /** The number of `[player]` placeholders: `text.components(separatedBy: "[player]").count - 1`. */
  function PlayerCount(text: string): nat
  {
    |Split(text, PlayerToken)| - 1
  }

  function Min(a: nat, b: nat): nat
  {
    if a <= b then a else b
  }

  /**
   * The name loop of the `text` getter as the code runs it: each round
   * searches the whole current text again, names already put in included.
   */
  function SubstituteAsWritten(text: string, names: seq<string>): string
    decreases |names|
  {
    if names == [] then text
    else match FirstIndex(text, PlayerToken)
      case None => text
      case Some(i) => SubstituteAsWritten(text[..i] + names[0] + text[i + |PlayerToken|..], names[1..])
  }

  /** What the `text` getter returns. */
  function Rendered<K>(e: Event<K>): string
  {
    var named := SubstituteAsWritten(e.blueprint.text, e.players);
    if e.randomNumber.Some? then ReplaceAll(named, NumberToken, DecimalString(e.randomNumber.value)) else named
  }

  /** `players` could come from `roster`: taken without replacement from a shuffle of it. */
  predicate DrawnFrom(players: seq<string>, roster: seq<string>)
  {
    multiset(players) <= multiset(roster)
  }

  /** `e` is an outcome of `Event.init(blueprint: b, availablePlayers: roster)`. */
  predicate IsInstance<K(==)>(e: Event<K>, b: Blueprint<K>, roster: seq<string>)
  {
    && e.blueprint == b
    && (e.randomNumber.None? <==> b.randomNumberRange.None?)
    && (e.randomNumber.Some? ==>
          b.randomNumberRange.value.lower <= e.randomNumber.value <= b.randomNumberRange.value.upper)
    && |e.players| == Min(PlayerCount(b.text), |roster|)
    && DrawnFrom(e.players, roster)
  }

  /**
   * `Event.init` with its two random draws made by the caller: `shuffled` is
   * the roster after `shuffled()`, `drawn` the result of `Int.random(in:)`,
   * which is used only when the blueprint has a range.
   */
  function Init<K(==)>(b: Blueprint<K>, roster: seq<string>, shuffled: seq<string>, drawn: int): (e: Event<K>)
    requires multiset(shuffled) == multiset(roster)
    requires b.randomNumberRange.Some? ==> b.randomNumberRange.value.lower <= drawn <= b.randomNumberRange.value.upper
    ensures IsInstance(e, b, roster)
    ensures |e.players| <= |shuffled| && e.players == shuffled[..|e.players|]
  {
    assert |shuffled| == |multiset(shuffled)| == |multiset(roster)| == |roster|;
    var count := Min(PlayerCount(b.text), |shuffled|);
    assert shuffled == shuffled[..count] + shuffled[count..];
    Event(b, if b.randomNumberRange.Some? then Some(drawn) else None, shuffled[..count])
  }

  /** `shuffled()`: some ordering of the roster. */
  method Shuffled(roster: seq<string>) returns (s: seq<string>)
    ensures multiset(s) == multiset(roster)
  {
    s :| multiset(s) == multiset(roster);
  }

  /** `Event(blueprint:availablePlayers:)` with its random draws. */
  method MakeEvent<K(==)>(b: Blueprint<K>, roster: seq<string>) returns (e: Event<K>)
    requires HasValidRange(b)
    ensures IsInstance(e, b, roster)
  {
    var shuffled := Shuffled(roster);
    var drawn := 0;
    if b.randomNumberRange.Some? {
      drawn :| b.randomNumberRange.value.lower <= drawn <= b.randomNumberRange.value.upper;
    }
    e := Init(b, roster, shuffled, drawn);
  }

  // ---------------------------------------------------------------------
  // Who takes part

  predicate Distinct(s: seq<string>)
  {
    forall i, j :: 0 <= i < j < |s| ==> s[i] != s[j]
  }

  lemma {:induction false} DistinctCounts(s: seq<string>, x: string)
    requires Distinct(s)
    ensures multiset(s)[x] <= 1
  {
    if |s| > 0 {
      DistinctCounts(s[1..], x);
      assert s == [s[0]] + s[1..];
      if s[0] == x {
        assert x !in s[1..];
      }
    }
  }

  /** Every player of an event is on the roster, and a roster without repeats gives players without repeats. */
  lemma PlayersFromRoster<K>(e: Event<K>, b: Blueprint<K>, roster: seq<string>)
    requires IsInstance(e, b, roster)
    ensures forall p :: p in e.players ==> p in roster
    ensures Distinct(roster) ==> Distinct(e.players)
  {
    forall p | p in e.players ensures p in roster {
      assert p in multiset(e.players);
    }
    if Distinct(roster) {
      DrawnKeepsDistinct(e.players, roster);
    }
  }

  lemma DrawnKeepsDistinct(players: seq<string>, roster: seq<string>)
    requires DrawnFrom(players, roster) && Distinct(roster)
    ensures Distinct(players)
  {
    forall i, j | 0 <= i < j < |players| ensures players[i] != players[j] {
      RepeatCounted(players, i, j);
      DistinctCounts(roster, players[i]);
    }
  }

  /** Two equal entries count twice. */
  lemma RepeatCounted(s: seq<string>, i: nat, j: nat)
    requires i < j < |s|
    ensures s[i] == s[j] ==> multiset(s)[s[i]] >= 2
  {
    assert s == s[..i] + [s[i]] + s[i + 1..j] + [s[j]] + s[j + 1..];
  }

  /**
   * A short roster is not an error: the event silently gets every name on
   * the roster and no more; a long enough roster fills every placeholder.
   */
  lemma ShortRoster<K>(e: Event<K>, b: Blueprint<K>, roster: seq<string>)
    requires IsInstance(e, b, roster)
    ensures |roster| < PlayerCount(b.text) ==> |e.players| == |roster| && multiset(e.players) == multiset(roster)
    ensures |roster| >= PlayerCount(b.text) ==> |e.players| == PlayerCount(b.text)
  {
    if |roster| < PlayerCount(b.text) {
      var m := multiset(roster) - multiset(e.players);
      assert |multiset(roster)| == |multiset(e.players)| + |m|;
      assert m == multiset{};
    }
  }

  // ---------------------------------------------------------------------
  // Rendering

  /**
   * The `[player]` search on a text starting with `prefix` finds nothing
   * inside `prefix` when every `[` there opens a `[number]` lying inside it.
   */
  ghost predicate OnlyNumberBrackets(prefix: string)
  {
    forall k :: BracketAt(prefix, k) ==> OccursAt(prefix, NumberToken, k)
  }

  /** Every `[` of a template opens a `[player]` or a `[number]`. */
  ghost predicate BracketsArePlaceholders(text: string)
  {
    forall k :: BracketAt(text, k) ==> OccursAt(text, PlayerToken, k) || OccursAt(text, NumberToken, k)
  }

  /** Position `k` of `s` holds a `[`. */
  predicate BracketAt(s: string, k: int)
  {
    0 <= k < |s| && s[k] == '['
  }

  predicate NoBracketNames(names: seq<string>)
  {
    forall n :: n in names ==> '[' !in n
  }

  /** Splitting at the leftmost occurrence. */
  lemma {:induction false} SplitAtFirst(t: string, tok: string, i: nat)
    requires tok != []
    requires OccursAt(t, tok, i)
    requires forall j: nat :: j < i ==> !OccursAt(t, tok, j)
    ensures Split(t, tok) == [t[..i]] + Split(t[i + |tok|..], tok)
  {
    if i == 0 {
      assert t[..|tok|] == tok;
    } else {
      forall j: nat | j < i - 1 ensures !OccursAt(t[1..], tok, j) {
        OccursShift(t, tok, j);
      }
      OccursShift(t, tok, i - 1);
      SplitAtFirst(t[1..], tok, i - 1);
      SplitNoMatchAtStart(t, tok, i);
    }
  }

  /** An occurrence in `t[1..]` is an occurrence in `t`, one position on. */
  lemma OccursShift(t: string, tok: string, j: nat)
    requires |t| >= 1
    ensures OccursAt(t[1..], tok, j) <==> OccursAt(t, tok, j + 1)
  {
    if j + |tok| <= |t| - 1 {
      assert t[1..][j..j + |tok|] == t[j + 1..j + 1 + |tok|];
    }
  }

  /** Without a match at position 0, the first component grows by the first character. */
  lemma SplitNoMatchAtStart(t: string, tok: string, i: nat)
    requires tok != [] && 0 < i && OccursAt(t, tok, i) && !OccursAt(t, tok, 0)
    requires Split(t[1..], tok) == [t[1..][..i - 1]] + Split(t[1..][i - 1 + |tok|..], tok)
    ensures Split(t, tok) == [t[..i]] + Split(t[i + |tok|..], tok)
  {
    var rest := Split(t[1..], tok);
    assert t[..|tok|] == t[0..|tok|];
    assert Split(t, tok) == [[t[0]] + rest[0]] + rest[1..];
    ConsParts(t[1..][..i - 1], Split(t[1..][i - 1 + |tok|..], tok));
    SliceShift(t, i - 1 + |tok|);
    SliceCons(t, i);
  }

  lemma ConsParts(a: string, b: seq<string>)
    ensures ([a] + b)[0] == a && ([a] + b)[1..] == b
  {
  }

  lemma SliceShift(t: string, k: nat)
    requires 0 < |t| && k <= |t| - 1
    ensures t[1..][k..] == t[k + 1..]
  {
  }

  lemma SliceCons(t: string, i: nat)
    requires 0 < i <= |t|
    ensures [t[0]] + t[1..][..i - 1] == t[..i]
  {
  }

  /** A clean prefix holds no `[player]`, nor does any occurrence start inside it. */
  lemma CleanPrefixHidesNothing(q: string, t: string, j: nat)
    requires OnlyNumberBrackets(q)
    requires j < |q|
    ensures !OccursAt(q + t, PlayerToken, j)
  {
    var s := q + t;
    if j + 8 <= |s| {
      assert s[j..j + 8][0] == q[j];
      if q[j] == '[' {
        assert BracketAt(q, j);
        assert OccursAt(q, NumberToken, j);
        assert s[j..j + 8] == q[j..j + 8];
      }
    }
  }

  /** After the first `[player]` of a template is filled, the processed part is again a clean prefix. */
  lemma CleanAfterFill(q: string, t: string, i: nat, name: string)
    requires OnlyNumberBrackets(q) && BracketsArePlaceholders(t)
    requires OccursAt(t, PlayerToken, i)
    requires forall j: nat :: j < i ==> !OccursAt(t, PlayerToken, j)
    requires '[' !in name
    ensures OnlyNumberBrackets(q + t[..i] + name)
    ensures BracketsArePlaceholders(t[i + |PlayerToken|..])
  {
    CleanBeforeFirstPlayer(t, i);
    CleanConcat(q, t[..i]);
    CleanWithoutBrackets(name);
    CleanConcat(q + t[..i], name);
    PlaceholdersAfter(t, i + |PlayerToken|);
  }

  /** Two clean pieces make a clean string. */
  lemma CleanConcat(a: string, b: string)
    requires OnlyNumberBrackets(a) && OnlyNumberBrackets(b)
    ensures OnlyNumberBrackets(a + b)
  {
    var s := a + b;
    forall k | BracketAt(s, k) ensures OccursAt(s, NumberToken, k) {
      if k < |a| {
        assert BracketAt(a, k);
        assert OccursAt(a, NumberToken, k);
        assert s[k..k + 8] == a[k..k + 8];
      } else {
        var m := k - |a|;
        assert b[m] == s[k];
        assert BracketAt(b, m);
        assert OccursAt(b, NumberToken, m);
        assert s[k..k + 8] == b[m..m + 8];
      }
    }
  }

  lemma CleanWithoutBrackets(name: string)
    requires '[' !in name
    ensures OnlyNumberBrackets(name)
  {
    forall k | 0 <= k < |name| ensures !BracketAt(name, k) {
      assert name[k] in name;
    }
  }

  /** In a template, every `[` before the first `[player]` opens a `[number]` that ends before it. */
  lemma CleanBeforeFirstPlayer(t: string, i: nat)
    requires BracketsArePlaceholders(t)
    requires OccursAt(t, PlayerToken, i)
    requires forall j: nat :: j < i ==> !OccursAt(t, PlayerToken, j)
    ensures OnlyNumberBrackets(t[..i])
  {
    var p := t[..i];
    assert t[i] == t[i..i + 8][0];
    forall m | BracketAt(p, m) ensures OccursAt(p, NumberToken, m) {
      assert t[m] == p[m];
      assert BracketAt(t, m);
      assert !OccursAt(t, PlayerToken, m);
      assert OccursAt(t, NumberToken, m);
      forall l | m < l < m + 8 ensures t[l] != '[' {
        assert t[l] == t[m..m + 8][l - m];
      }
      assert m + 8 <= i;
      assert p[m..m + 8] == t[m..m + 8];
    }
  }

  /** What follows a placeholder of a template is again a template. */
  lemma PlaceholdersAfter(t: string, n: nat)
    requires BracketsArePlaceholders(t) && n <= |t|
    ensures BracketsArePlaceholders(t[n..])
  {
    var r := t[n..];
    forall k | BracketAt(r, k) ensures OccursAt(r, PlayerToken, k) || OccursAt(r, NumberToken, k) {
      var m := k + n;
      assert t[m] == r[k];
      assert BracketAt(t, m);
      assert m + 8 <= |t|;
      assert r[k..k + 8] == t[m..m + 8];
    }
  }

  /** Behind a clean prefix, the `[player]` search finds what it finds in the rest, shifted. */
  lemma FirstIndexAfterCleanPrefix(q: string, t: string)
    requires OnlyNumberBrackets(q)
    ensures FirstIndex(t, PlayerToken).None? ==> FirstIndex(q + t, PlayerToken).None?
    ensures FirstIndex(t, PlayerToken).Some? ==> FirstIndex(q + t, PlayerToken) == Some(|q| + FirstIndex(t, PlayerToken).value)
  {
    var s := q + t;
    forall j: nat | |q| <= j && j + 8 <= |s| ensures OccursAt(s, PlayerToken, j) == OccursAt(t, PlayerToken, j - |q|) {
      assert s[j..j + 8] == t[j - |q|..j - |q| + 8];
    }
    forall j: nat | j < |q| ensures !OccursAt(s, PlayerToken, j) {
      CleanPrefixHidesNothing(q, t, j);
    }
    match FirstIndex(t, PlayerToken)
    case None =>
      assert Absent(s, PlayerToken) by {
        forall j: nat | j + 8 <= |s| ensures !OccursAt(s, PlayerToken, j) {
          if |q| <= j {
            assert !OccursAt(t, PlayerToken, j - |q|);
          }
        }
      }
    case Some(i) =>
      var n := |q| + i;
      assert OccursAt(s, PlayerToken, n);
      var f := FirstIndex(s, PlayerToken);
      assert f.Some?;
      if |q| <= f.value {
        assert OccursAt(t, PlayerToken, f.value - |q|);
      }
      assert !(f.value < n) && !(n < f.value);
  }

  /** Generalisation of `SubstitutionLeftToRight` to a text whose processed part is `q`. */
  lemma {:induction false} SubstituteAfterCleanPrefix(q: string, t: string, names: seq<string>)
    requires OnlyNumberBrackets(q) && BracketsArePlaceholders(t) && NoBracketNames(names)
    ensures SubstituteAsWritten(q + t, names) == q + Fill(Split(t, PlayerToken), names, PlayerToken)
    decreases |names|
  {
    FirstIndexAfterCleanPrefix(q, t);
    var f := FirstIndex(t, PlayerToken);
    if names == [] {
      JoinSplit(t, PlayerToken);
    } else if f.None? {
      SplitAbsent(t, PlayerToken);
      assert SubstituteAsWritten(q + t, names) == q + t;
    } else {
      var i := f.value;
      var name := names[0];
      assert name in names;
      CleanAfterFill(q, t, i, name);
      SubstituteAfterCleanPrefix(q + t[..i] + name, t[i + |PlayerToken|..], names[1..]);
      SubstituteFirstPlaceholder(q, t, i, names);
    }
  }

  /** The inductive step of `SubstituteAfterCleanPrefix`, given the claim for the rest of the text. */
  lemma SubstituteFirstPlaceholder(q: string, t: string, i: nat, names: seq<string>)
    requires OnlyNumberBrackets(q) && names != []
    requires FirstIndex(t, PlayerToken) == Some(i)
    requires SubstituteAsWritten((q + t[..i] + names[0]) + t[i + |PlayerToken|..], names[1..])
          == (q + t[..i] + names[0]) + Fill(Split(t[i + |PlayerToken|..], PlayerToken), names[1..], PlayerToken)
    ensures SubstituteAsWritten(q + t, names) == q + Fill(Split(t, PlayerToken), names, PlayerToken)
  {
    var name := names[0];
    var q' := q + t[..i] + name;
    var t' := t[i + |PlayerToken|..];
    SubstituteFirstStep(q, t, i, names);
    FillAtFirst(t, i, names);
    var rest := Fill(Split(t', PlayerToken), names[1..], PlayerToken);
    Regroup(q, t[..i], name, rest);
  }

  lemma Regroup(q: string, a: string, name: string, rest: string)
    ensures (q + a + name) + rest == q + (a + name + rest)
  {
  }

  /** Filling a template: the text up to the first `[player]`, the first name, then the rest filled with the other names. */
  lemma FillAtFirst(t: string, i: nat, names: seq<string>)
    requires names != []
    requires FirstIndex(t, PlayerToken) == Some(i)
    ensures Fill(Split(t, PlayerToken), names, PlayerToken)
         == t[..i] + names[0] + Fill(Split(t[i + |PlayerToken|..], PlayerToken), names[1..], PlayerToken)
  {
    SplitAtFirst(t, PlayerToken, i);
    FillFirst(t[..i], Split(t[i + |PlayerToken|..], PlayerToken), names, PlayerToken);
  }

  /** One round of the name loop behind a clean prefix. */
  lemma SubstituteFirstStep(q: string, t: string, i: nat, names: seq<string>)
    requires OnlyNumberBrackets(q) && names != []
    requires FirstIndex(t, PlayerToken) == Some(i)
    ensures SubstituteAsWritten(q + t, names)
         == SubstituteAsWritten((q + t[..i] + names[0]) + t[i + |PlayerToken|..], names[1..])
  {
    FirstIndexAfterCleanPrefix(q, t);
    RejoinAroundCut(q, t, i, |PlayerToken|, names[0]);
    SubstituteUnfold(q + t, names, |q| + i, (q + t[..i] + names[0]) + t[i + |PlayerToken|..]);
  }

  /** One round of the name loop, at the first `[player]`. */
  lemma SubstituteUnfold(u: string, names: seq<string>, n: nat, filled: string)
    requires names != [] && FirstIndex(u, PlayerToken) == Some(n)
    requires n + |PlayerToken| <= |u| && filled == u[..n] + names[0] + u[n + |PlayerToken|..]
    ensures SubstituteAsWritten(u, names) == SubstituteAsWritten(filled, names[1..])
  {
  }

  /** Replacing `k` characters of `q + t` that lie inside `t`. */
  lemma RejoinAroundCut(q: string, t: string, i: nat, k: nat, name: string)
    requires i + k <= |t|
    ensures (q + t)[..|q| + i] + name + (q + t)[|q| + i + k..] == (q + t[..i] + name) + t[i + k..]
  {
    assert (q + t)[..|q| + i] == q + t[..i];
    assert (q + t)[|q| + i + k..] == t[i + k..];
  }

  /** The first filler goes between the first two parts. */
  lemma FillFirst(p: string, rest: seq<string>, fillers: seq<string>, sep: string)
    requires |rest| >= 1 && fillers != []
    ensures Fill([p] + rest, fillers, sep) == p + fillers[0] + Fill(rest, fillers[1..], sep)
  {
    assert ([p] + rest)[1..] == rest;
  }

  /**
   * The name loop fills the placeholders left to right: the k-th `[player]`
   * of the template gets the k-th name, and once the names run out the
   * remaining placeholders stay as they are (`Fill` uses the token itself
   * as separator from then on). This needs the names to hold no `[` and
   * every `[` of the template to open a placeholder; without that, a name
   * can itself become the next `[player]` the loop finds (see `NameWithTokenIsRefilled`).
   */
  lemma SubstitutionLeftToRight(text: string, names: seq<string>)
    requires BracketsArePlaceholders(text) && NoBracketNames(names)
    ensures SubstituteAsWritten(text, names) == Fill(Split(text, PlayerToken), names, PlayerToken)
  {
    NothingBeforeIsClean();
    SubstituteAfterCleanPrefix("", text, names);
    LeftUnit(text);
  }

  lemma NothingBeforeIsClean()
    ensures OnlyNumberBrackets("")
  {
  }

  lemma LeftUnit(s: string)
    ensures "" + s == s
  {
  }

  /** A name that is itself `[player]` is overwritten by the next name: one-pass substitution would give "[player] vs B". */
  lemma NameWithTokenIsRefilled()
    ensures SubstituteAsWritten("[player] vs [player]", ["[player]", "B"]) == "B vs [player]"
  {
    var t := "[player] vs [player]";
    assert OccursAt(t, PlayerToken, 0);
    assert FirstIndex(t, PlayerToken) == Some(0);
    var t1 := t[..0] + "[player]" + t[8..];
    assert t1 == t;
    assert FirstIndex(t1, PlayerToken) == Some(0);
    var t2 := t1[..0] + "B" + t1[8..];
    assert t2 == "B vs [player]";
  }

  /** A template without placeholders renders as written. */
  lemma NoPlaceholdersUnchanged<K>(e: Event<K>)
    requires Absent(e.blueprint.text, PlayerToken) && Absent(e.blueprint.text, NumberToken)
    ensures Rendered(e) == e.blueprint.text
  {
    var t := e.blueprint.text;
    if e.players != [] {
      assert FirstIndex(t, PlayerToken).None?;
    }
    assert SubstituteAsWritten(t, e.players) == t;
    if e.randomNumber.Some? {
      ReplaceAllAbsent(t, NumberToken, DecimalString(e.randomNumber.value));
    }
  }

  /**
   * The number step: with a number, the text is cut at every `[number]` and
   * glued back with the number's decimal digits; without one, `[number]` stays.
   */
  lemma NumberFilledEverywhere<K>(e: Event<K>)
    ensures var named := SubstituteAsWritten(e.blueprint.text, e.players);
      && (e.randomNumber.Some? ==> Rendered(e) == Join(Split(named, NumberToken), DecimalString(e.randomNumber.value)))
      && (e.randomNumber.None? ==> Rendered(e) == named)
  {
    var named := SubstituteAsWritten(e.blueprint.text, e.players);
    if e.randomNumber.Some? {
      ReplaceAllIsJoin(named, NumberToken, DecimalString(e.randomNumber.value));
    }
  }
}
