/**
 The list and map clean-up loops that several components share: trim (and often lower-case)
 every entry, drop blanks and repetitions, sort.
 */
module Normalize {
  import opened Text

  /** How entries are cleaned: `TrimSpace` or `Norm`. */
  ghost predicate Cleaner(f: string -> string) {
    f == TrimSpace || f == Norm
  }

  lemma CleanerIdempotent(f: string -> string, s: string)
    requires Cleaner(f)
    ensures f(f(s)) == f(s)
  {}

  /** Cleaned non-blank entries, each once, in order of first appearance. */
  function Clean(xs: seq<string>, f: string -> string): seq<string> {
    if xs == [] then []
    else
      var front, x := Clean(xs[..|xs| - 1], f), f(xs[|xs| - 1]);
      if x == "" || x in front then front else front + [x]
  }

  /** The clean-up loop with its set of entries seen so far. */
  method CleanLoop(xs: seq<string>, f: string -> string) returns (out: seq<string>)
    ensures out == Clean(xs, f)
  {
    out := [];
    var seen: set<string> := {};
    for i := 0 to |xs|
      invariant out == Clean(xs[..i], f) && seen == Elems(out)
    {
      assert xs[..i + 1][..i] == xs[..i];
      var item := f(xs[i]);
      if item != "" && item !in seen {
        seen, out := seen + {item}, out + [item];
      }
    }
    assert xs[..|xs|] == xs;
  }

  lemma {:induction false} CleanMembers(xs: seq<string>, f: string -> string)
    ensures forall y :: y in Clean(xs, f) <==> y != "" && exists x :: x in xs && f(x) == y
    ensures NoDup(Clean(xs, f))
  {
    if xs != [] {
      var front, last := xs[..|xs| - 1], xs[|xs| - 1];
      CleanMembers(front, f);
      assert forall x :: x in xs <==> x in front || x == last;
    }
  }

  lemma {:induction false} CleanId(xs: seq<string>, f: string -> string)
    requires NoDup(xs) && forall x :: x in xs ==> x != "" && f(x) == x
    ensures Clean(xs, f) == xs
  {
    if xs != [] {
      var front, last := xs[..|xs| - 1], xs[|xs| - 1];
      assert xs == front + [last];
      assert forall x :: x in front ==> x in xs;
      CleanId(front, f);
    }
  }

  function SortedClean(xs: seq<string>, f: string -> string): seq<string> {
    Sort(Clean(xs, f))
  }

  method SortedCleanLoop(xs: seq<string>, f: string -> string) returns (out: seq<string>)
    ensures out == SortedClean(xs, f)
  {
    out := CleanLoop(xs, f);
    out := Sort(out);
  }

  /** Strictly ascending, and every entry non-blank and clean already. */
  ghost predicate IsSortedClean(xs: seq<string>, f: string -> string) {
    Ascending(xs) && forall x :: x in xs ==> x != "" && f(x) == x
  }

  /** Cleaning keeps exactly the cleaned non-blank entries, in ascending order. */
  lemma SortedCleanMeaning(xs: seq<string>, f: string -> string)
    requires Cleaner(f)
    ensures IsSortedClean(SortedClean(xs, f), f)
    ensures Elems(SortedClean(xs, f)) == set x | x in xs && f(x) != "" :: f(x)
  {
    hide Clean;
    hide Sort;
    var c, r := Clean(xs, f), SortedClean(xs, f);
    CleanMembers(xs, f);
    SortAscending(c);
    MultisetMember(c, r);
    forall y | y in r ensures y != "" && f(y) == y {
      var x :| x in xs && f(x) == y;
      CleanerIdempotent(f, x);
    }
  }

  /** Clean lists are exactly the ones cleaning leaves alone. */
  lemma SortedCleanId(xs: seq<string>, f: string -> string)
    requires IsSortedClean(xs, f)
    ensures SortedClean(xs, f) == xs && Clean(xs, f) == xs
  {
    AscendingSortId(xs);
    CleanId(xs, f);
  }

  /** Collecting the keys of a map in whatever order it yields them, then sorting. */
  method SortKeys(keys: set<string>) returns (out: seq<string>)
    ensures out == SortedElems(keys)
  {
    out := [];
    var rest := keys;
    while rest != {}
      invariant rest <= keys && Elems(out) == keys - rest && NoDup(out)
    {
      var k :| k in rest;
      assert k !in Elems(out);
      assert Elems(out + [k]) == Elems(out) + {k};
      rest, out := rest - {k}, out + [k];
    }
    SortAscending(out);
    AscendingUnique(Sort(out), SortedElems(keys));
    out := Sort(out);
  }

  // ------------------------------------------------------------------- maps

  /**
   `out` is what cleaning a map can give: keys cleaned with `f`, blank ones dropped, values trimmed.
   Where several keys clean to the same key, any one of them may win.
   */
  ghost predicate MapCleaned(m: map<string, string>, out: map<string, string>, f: string -> string) {
    && (forall k :: k in m && f(k) != "" ==> f(k) in out)
    && (forall j :: j in out ==> j != "" && exists k :: k in m && f(k) == j && out[j] == TrimSpace(m[k]))
  }

  ghost predicate IsCleanMap(m: map<string, string>, f: string -> string) {
    forall k :: k in m ==> k != "" && f(k) == k && Trimmed(m[k])
  }

  /** Ranging over the map in whatever order it yields its keys. */
  method CleanMapLoop(m: map<string, string>, f: string -> string) returns (out: map<string, string>)
    ensures MapCleaned(m, out, f)
  {
    out := map[];
    var rest := m.Keys;
    ghost var done: set<string> := {};
    while rest != {}
      invariant rest <= m.Keys && done == m.Keys - rest
      invariant forall k :: k in done && f(k) != "" ==> f(k) in out
      invariant forall j :: j in out ==> j != "" && exists k :: k in done && f(k) == j && out[j] == TrimSpace(m[k])
    {
      var k :| k in rest;
      rest, done := rest - {k}, done + {k};
      var key := f(k);
      if key != "" { out := out[key := TrimSpace(m[k])]; }
    }
  }

  lemma MapCleanedIsClean(m: map<string, string>, out: map<string, string>, f: string -> string)
    requires Cleaner(f) && MapCleaned(m, out, f)
    ensures IsCleanMap(out, f)
  {
    forall j | j in out ensures f(j) == j && Trimmed(out[j]) {
      var k :| k in m && f(k) == j && out[j] == TrimSpace(m[k]);
      CleanerIdempotent(f, k);
    }
  }

  /** A clean map can only be cleaned to itself. */
  lemma CleanMapId(m: map<string, string>, out: map<string, string>, f: string -> string)
    requires IsCleanMap(m, f) && MapCleaned(m, out, f)
    ensures out == m
  {
    assert forall j :: j in out ==> j in m && out[j] == m[j];
    assert forall k :: k in m ==> k in out;
  }
}
