/**
 * `Voice` and `Voice.allCases`: the installed system voices, sorted by name,
 * keeping only English ones (identifier containing "en-") and only the first
 * voice of each name. The list of installed voices is an input here.
 */
module Voices {
  import opened Strings

  /** An installed voice as the speech framework lists it. */
  datatype SystemVoice = SystemVoice(identifier: string, name: string)

  datatype Voice = Voice(id: string, display: string)

  const EnglishMarker: string := "en-"

  /** `identifier.contains("en-")`. */
  predicate IsEnglish(identifier: string)
  {
    !Absent(identifier, EnglishMarker)
  }

  // ---------------------------------------------------------------------
  // Name order

  /** `a < b` on names, character by character, a proper prefix first. */
  predicate Below(a: string, b: string)
    decreases |a|
  {
    if a == [] then b != []
    else b != [] && (a[0] < b[0] || (a[0] == b[0] && Below(a[1..], b[1..])))
  }

  lemma {:induction false} BelowIrreflexive(a: string)
    ensures !Below(a, a)
    decreases |a|
  {
    if a != [] {
      BelowIrreflexive(a[1..]);
    }
  }

  lemma {:induction false} BelowTransitive(a: string, b: string, c: string)
    requires Below(a, b) && Below(b, c)
    ensures Below(a, c)
    decreases |a|
  {
    if a != [] && a[0] == b[0] && b[0] == c[0] {
      BelowTransitive(a[1..], b[1..], c[1..]);
    }
  }

  lemma {:induction false} BelowTotal(a: string, b: string)
    ensures a == b || Below(a, b) || Below(b, a)
    decreases |a|
  {
    if a != [] && b != [] && a[0] == b[0] {
      BelowTotal(a[1..], b[1..]);
      if a[1..] == b[1..] {
        assert a == [a[0]] + a[1..] && b == [b[0]] + b[1..];
      }
    }
  }

  /** "Not below" (at most) is transitive. */
  lemma AtMostTransitive(a: string, b: string, c: string)
    requires !Below(b, a) && !Below(c, b)
    ensures !Below(c, a)
  {
    BelowTotal(a, b);
    BelowTotal(b, c);
    if a != b && b != c {
      BelowTransitive(a, b, c);
      if Below(c, a) {
        BelowTransitive(a, c, a);
        BelowIrreflexive(a);
      }
    }
  }

  // ---------------------------------------------------------------------
  // `sorted { $0.name < $1.name }`

  predicate SortedByName(vs: seq<SystemVoice>)
  {
    forall i, j :: 0 <= i < j < |vs| ==> !Below(vs[j].name, vs[i].name)
  }

  /** Puts `v` before the first voice whose name is not below `v`'s. */
  function Insert(v: SystemVoice, vs: seq<SystemVoice>): (r: seq<SystemVoice>)
    ensures multiset(r) == multiset(vs) + multiset{v}
  {
    if vs == [] then [v]
    else if !Below(vs[0].name, v.name) then [v] + vs
    else
      assert vs == [vs[0]] + vs[1..];
      [vs[0]] + Insert(v, vs[1..])
  }

  lemma {:induction false} InsertSorted(v: SystemVoice, vs: seq<SystemVoice>)
    requires SortedByName(vs)
    ensures SortedByName(Insert(v, vs))
  {
    var r := Insert(v, vs);
    if vs == [] {
    } else if !Below(vs[0].name, v.name) {
      forall j | 0 < j < |r| ensures !Below(r[j].name, v.name) {
        assert r[j] == vs[j - 1];
        if j > 1 {
          AtMostTransitive(v.name, vs[0].name, vs[j - 1].name);
        }
      }
    } else {
      InsertSorted(v, vs[1..]);
      var tail := Insert(v, vs[1..]);
      BelowTotal(vs[0].name, v.name);
      forall j | 0 <= j < |tail| ensures !Below(tail[j].name, vs[0].name) {
        assert tail[j] in multiset(tail);
        if tail[j] == v {
          if Below(v.name, vs[0].name) {
            BelowTransitive(v.name, vs[0].name, v.name);
            BelowIrreflexive(v.name);
          }
        } else {
          assert tail[j] in multiset(vs[1..]);
          var k :| 0 <= k < |vs[1..]| && vs[1..][k] == tail[j];
          assert vs[k + 1] == tail[j];
        }
      }
      assert r == [vs[0]] + tail;
    }
  }

  /** The voices ordered by name; equal names keep their relative order. */
  function SortByName(vs: seq<SystemVoice>): (r: seq<SystemVoice>)
    ensures multiset(r) == multiset(vs)
  {
    if vs == [] then []
    else
      assert vs == [vs[0]] + vs[1..];
      Insert(vs[0], SortByName(vs[1..]))
  }

  lemma {:induction false} SortByNameSorted(vs: seq<SystemVoice>)
    ensures SortedByName(SortByName(vs))
  {
    if vs != [] {
      SortByNameSorted(vs[1..]);
      InsertSorted(vs[0], SortByName(vs[1..]));
    }
  }

  // ---------------------------------------------------------------------
  // `compactMap` over the sorted voices

  /** What the `compactMap` keeps from `vs`, given the names already taken. */
  function Kept(vs: seq<SystemVoice>, names: set<string>): seq<Voice>
  {
    if vs == [] then []
    else if IsEnglish(vs[0].identifier) && vs[0].name !in names then
      [Voice(vs[0].identifier, vs[0].name)] + Kept(vs[1..], names + {vs[0].name})
    else Kept(vs[1..], names)
  }

  /** `Voice.allCases`. */
  method AllCases(installed: seq<SystemVoice>) returns (voices: seq<Voice>)
    ensures voices == Kept(SortByName(installed), {})
  {
    var sorted := SortByName(installed);
    var names: set<string> := {};
    voices := [];
    var i := 0;
    while i < |sorted|
      invariant 0 <= i <= |sorted|
      invariant voices + Kept(sorted[i..], names) == Kept(sorted, {})
    {
      var v := sorted[i];
      KeptStep(sorted, i, names);
      if IsEnglish(v.identifier) && v.name !in names {
        KeepOne(voices, Voice(v.identifier, v.name), Kept(sorted[i + 1..], names + {v.name}));
        names := names + {v.name};
        voices := voices + [Voice(v.identifier, v.name)];
      }
      i := i + 1;
    }
  }

  /** One step of the `compactMap`, taken from position `i`. */
  lemma KeptStep(vs: seq<SystemVoice>, i: nat, names: set<string>)
    requires i < |vs|
    ensures Kept(vs[i..], names) ==
      if IsEnglish(vs[i].identifier) && vs[i].name !in names
      then [Voice(vs[i].identifier, vs[i].name)] + Kept(vs[i + 1..], names + {vs[i].name})
      else Kept(vs[i + 1..], names)
  {
    assert vs[i..][1..] == vs[i + 1..];
  }

  lemma KeepOne(voices: seq<Voice>, w: Voice, tail: seq<Voice>)
    ensures voices + ([w] + tail) == (voices + [w]) + tail
  {
  }

  /**
   * Every kept voice is English, names no voice already taken, and is an
   * installed voice under another type.
   */
  lemma {:induction false} KeptFromEnglishInput(vs: seq<SystemVoice>, names: set<string>)
    ensures forall w :: w in Kept(vs, names) ==> IsEnglish(w.id) && w.display !in names && SystemVoice(w.id, w.display) in vs
  {
    if vs != [] {
      KeptFromEnglishInput(vs[1..], names);
      KeptFromEnglishInput(vs[1..], names + {vs[0].name});
    }
  }

  predicate DistinctNames(r: seq<Voice>)
  {
    forall i, j :: 0 <= i < j < |r| ==> r[i].display != r[j].display
  }

  predicate AscendingNames(r: seq<Voice>)
  {
    forall i, j :: 0 <= i < j < |r| ==> Below(r[i].display, r[j].display)
  }

  /** Kept names are pairwise different. */
  lemma {:induction false} KeptNamesDistinct(vs: seq<SystemVoice>, names: set<string>)
    ensures DistinctNames(Kept(vs, names))
  {
    if vs != [] {
      KeptNamesDistinct(vs[1..], names);
      KeptNamesDistinct(vs[1..], names + {vs[0].name});
      KeptFromEnglishInput(vs[1..], names + {vs[0].name});
      var r := Kept(vs, names);
      if IsEnglish(vs[0].identifier) && vs[0].name !in names {
        var tail := Kept(vs[1..], names + {vs[0].name});
        assert r == [Voice(vs[0].identifier, vs[0].name)] + tail;
        forall i, j | 0 <= i < j < |r| ensures r[i].display != r[j].display {
          assert r[j] == tail[j - 1];
          assert tail[j - 1] in tail;
          if i > 0 {
            assert r[i] == tail[i - 1];
          }
        }
      } else {
        assert r == Kept(vs[1..], names);
      }
    }
  }

  /** On name-sorted input the kept voices come out in strictly increasing name order. */
  lemma {:induction false} KeptAscending(vs: seq<SystemVoice>, names: set<string>)
    requires SortedByName(vs)
    ensures AscendingNames(Kept(vs, names))
  {
    if vs != [] {
      var rest := vs[1..];
      SortedTail(vs);
      KeptAscending(rest, names);
      KeptAscending(rest, names + {vs[0].name});
      if IsEnglish(vs[0].identifier) && vs[0].name !in names {
        var tail := Kept(rest, names + {vs[0].name});
        HeadBelowKept(vs, names + {vs[0].name});
        var r := Kept(vs, names);
        assert r == [Voice(vs[0].identifier, vs[0].name)] + tail;
        forall i, j | 0 <= i < j < |r| ensures Below(r[i].display, r[j].display) {
          assert r[j] == tail[j - 1];
          if i > 0 {
            assert r[i] == tail[i - 1];
          }
        }
      } else {
        assert Kept(vs, names) == Kept(rest, names);
      }
    }
  }

  lemma SortedTail(vs: seq<SystemVoice>)
    requires vs != [] && SortedByName(vs)
    ensures SortedByName(vs[1..])
  {
    var rest := vs[1..];
    forall i, j | 0 <= i < j < |rest| ensures !Below(rest[j].name, rest[i].name) {
      assert rest[i] == vs[i + 1] && rest[j] == vs[j + 1];
    }
  }

  /** Once its name is taken, the head of sorted input is below every name kept after it. */
  lemma HeadBelowKept(vs: seq<SystemVoice>, names: set<string>)
    requires vs != [] && SortedByName(vs) && vs[0].name in names
    ensures forall w :: w in Kept(vs[1..], names) ==> Below(vs[0].name, w.display)
  {
    var rest := vs[1..];
    KeptFromEnglishInput(rest, names);
    forall w | w in Kept(rest, names) ensures Below(vs[0].name, w.display) {
      var k :| 0 <= k < |rest| && rest[k] == SystemVoice(w.id, w.display);
      assert vs[k + 1] == rest[k];
      BelowTotal(vs[0].name, w.display);
    }
  }

  /**
   * For each English name not yet taken, the first English voice of that
   * name in the input is the one kept.
   */
  lemma {:induction false} FirstOfEachNameKept(vs: seq<SystemVoice>, names: set<string>, i: nat)
    requires i < |vs| && IsEnglish(vs[i].identifier) && vs[i].name !in names
    requires forall j :: 0 <= j < i ==> !(IsEnglish(vs[j].identifier) && vs[j].name == vs[i].name)
    ensures Voice(vs[i].identifier, vs[i].name) in Kept(vs, names)
  {
    if i > 0 {
      var names' := if IsEnglish(vs[0].identifier) && vs[0].name !in names then names + {vs[0].name} else names;
      FirstOfEachNameKept(vs[1..], names', i - 1);
    }
  }

  /** The properties of `allCases` together. */
  lemma AllCasesProperties(installed: seq<SystemVoice>)
    ensures var r := Kept(SortByName(installed), {});
      && (forall w :: w in r ==> IsEnglish(w.id) && SystemVoice(w.id, w.display) in installed)
      && AscendingNames(r)
  {
    var sorted := SortByName(installed);
    KeptFromEnglishInput(sorted, {});
    SortByNameSorted(installed);
    KeptAscending(sorted, {});
    forall w | w in Kept(sorted, {}) ensures SystemVoice(w.id, w.display) in installed {
      assert SystemVoice(w.id, w.display) in multiset(sorted);
    }
  }
}
