/** Go's string order and TrimSpace, and the normalisation of name lists. */
module Strings {

  // ---- Go's string order: bytewise lexicographic ----

  predicate Less(a: string, b: string) {
    b != [] && (a == [] || a[0] < b[0] || (a[0] == b[0] && Less(a[1..], b[1..])))
  }

  lemma {:induction false} LessIsTotal(a: string, b: string)
    ensures Less(a, b) || a == b || Less(b, a)
    ensures !(Less(a, b) && (Less(b, a) || a == b))
  {
    if a != [] && b != [] {
      LessIsTotal(a[1..], b[1..]);
      assert a == [a[0]] + a[1..] && b == [b[0]] + b[1..];
    }
  }

  lemma {:induction false} LessIsTransitive(a: string, b: string, c: string)
    requires Less(a, b) && Less(b, c)
    ensures Less(a, c)
  {
    if a != [] && a[0] == b[0] && b[0] == c[0] {
      LessIsTransitive(a[1..], b[1..], c[1..]);
    }
  }

  // ---- strings.TrimSpace ----

  predicate IsSpace(c: char) {
    c == ' ' || c == '\t' || c == '\n' || c == '\r' || c == '\U{0B}' || c == '\U{0C}' || c == '\U{85}' || c == '\U{A0}'
  }

  function Trim(s: string): string {
    if s == "" then ""
    else if IsSpace(s[0]) then Trim(s[1..])
    else if IsSpace(s[|s| - 1]) then Trim(s[..|s| - 1])
    else s
  }

  lemma {:induction false} TrimIsTrimmed(s: string)
    ensures Trim(Trim(s)) == Trim(s)
    decreases |s|
  {
    if s != "" {
      if IsSpace(s[0]) {
        TrimIsTrimmed(s[1..]);
      } else if IsSpace(s[|s| - 1]) {
        TrimIsTrimmed(s[..|s| - 1]);
      }
    }
  }

  /** unicode.IsSpace on the characters below U+0100. */
  predicate Blank(c: char) {
    c in {' ', '\t', '\n', '\r', '\U{0B}', '\U{0C}', '\U{85}', '\U{A0}'}
  }

  lemma SpaceIsBlank(c: char)
    ensures IsSpace(c) <==> Blank(c)
  {
  }

  /** Trimming leaves the part between the first and the last character that is not blank. */
  lemma {:induction false} TrimTakesBlanks(s: string) returns (i: nat, j: nat)
    ensures i <= j <= |s| && Trim(s) == s[i..j]
    ensures forall k :: 0 <= k < i || j <= k < |s| ==> Blank(s[k])
    ensures i < j ==> !Blank(s[i]) && !Blank(s[j - 1])
    decreases |s|
  {
    hide IsSpace, Blank;
    i, j := 0, |s|;
    if s != "" {
      SpaceIsBlank(s[0]);
      SpaceIsBlank(s[|s| - 1]);
      if IsSpace(s[0]) {
        var t := s[1..];
        i, j := TrimTakesBlanks(t);
        i, j := i + 1, j + 1;
        assert t[i - 1..j - 1] == s[i..j];
        assert forall k :: 1 <= k < |s| ==> s[k] == t[k - 1];
      } else if IsSpace(s[|s| - 1]) {
        var t := s[..|s| - 1];
        i, j := TrimTakesBlanks(t);
        assert t[i..j] == s[i..j];
        assert forall k :: 0 <= k < |t| ==> s[k] == t[k];
      } else {
        assert s[0..|s|] == s;
      }
    }
  }

  /** Of two different strings the one that is a prefix of the other is the lesser, or else the one with the lesser character
      at the first place where they differ. */
  lemma {:induction false} LessMeans(a: string, b: string, n: nat)
    requires n <= |a| && n <= |b| && a[..n] == b[..n] && a != b
    requires n == |a| || n == |b| || a[n] != b[n]
    ensures Less(a, b) <==> if n == |a| then true else if n == |b| then false else a[n] < b[n]
  {
    if n > 0 {
      assert a[0] == a[..n][0] == b[..n][0] == b[0];
      assert a[1..][..n - 1] == a[..n][1..] == b[..n][1..] == b[1..][..n - 1];
      assert a == [a[0]] + a[1..] && b == [b[0]] + b[1..];
      LessMeans(a[1..], b[1..], n - 1);
    }
  }

  // ---- normalizeStringList ----

  /** What the loop collects: trimmed, not empty, each once, in order of first appearance. */
  function Collect(values: seq<string>): seq<string>
    decreases |values|
  {
    if values == [] then []
    else
      var out := Collect(values[..|values| - 1]);
      var value := Trim(values[|values| - 1]);
      if value == "" || value in out then out else out + [value]
  }

  function Insert(x: string, ys: seq<string>): seq<string> {
    if ys == [] || !Less(ys[0], x) then [x] + ys else [ys[0]] + Insert(x, ys[1..])
  }

  /** sort.Strings */
  function Sorted(xs: seq<string>): seq<string> {
    if xs == [] then [] else Insert(xs[0], Sorted(xs[1..]))
  }

  function NormalizeList(values: seq<string>): seq<string> {
    Sorted(Collect(values))
  }

  /** Strictly ascending, hence without repetition. */
  ghost predicate Ascending(xs: seq<string>) {
    forall i, j :: 0 <= i < j < |xs| ==> Less(xs[i], xs[j])
  }

  ghost predicate Names(values: seq<string>, v: string) {
    v != "" && exists x :: x in values && Trim(x) == v
  }

  lemma {:induction false} CollectExactly(values: seq<string>)
    ensures forall v :: v in Collect(values) <==> Names(values, v)
    ensures forall i, j :: 0 <= i < j < |Collect(values)| ==> Collect(values)[i] != Collect(values)[j]
    decreases |values|
  {
    if values != [] {
      var init, last := values[..|values| - 1], values[|values| - 1];
      CollectExactly(init);
      assert values == init + [last];
      forall v
        ensures Names(values, v) <==> Names(init, v) || (v == Trim(last) && v != "")
      {
        if Names(values, v) && !Names(init, v) {
          var x :| x in values && Trim(x) == v;
          assert x == last;
        }
        if v == Trim(last) && v != "" {
          assert last in values;
        }
        if Names(init, v) {
          var x :| x in init && Trim(x) == v;
          assert x in values;
        }
      }
    }
  }

  lemma {:induction false} InsertAscends(x: string, ys: seq<string>)
    requires Ascending(ys) && x !in ys
    ensures Ascending(Insert(x, ys))
    ensures forall z :: z in Insert(x, ys) <==> z == x || z in ys
  {
    if ys != [] {
      LessIsTotal(x, ys[0]);
      if !Less(ys[0], x) {
        forall j | 0 <= j < |ys|
          ensures Less(x, ys[j])
        {
          if j > 0 {
            LessIsTransitive(x, ys[0], ys[j]);
          }
        }
      } else {
        var rest := Insert(x, ys[1..]);
        InsertAscends(x, ys[1..]);
        forall j | 0 <= j < |rest|
          ensures Less(ys[0], rest[j])
        {
          assert rest[j] in rest;
          if rest[j] != x {
            var k :| 0 <= k < |ys[1..]| && ys[1..][k] == rest[j];
            assert Less(ys[0], ys[k + 1]);
          }
        }
        assert ys == [ys[0]] + ys[1..];
      }
    }
  }

  lemma {:induction false} SortedAscends(xs: seq<string>)
    requires forall i, j :: 0 <= i < j < |xs| ==> xs[i] != xs[j]
    ensures Ascending(Sorted(xs))
    ensures forall z :: z in Sorted(xs) <==> z in xs
  {
    if xs != [] {
      SortedAscends(xs[1..]);
      assert xs == [xs[0]] + xs[1..];
      forall k | 0 <= k < |xs[1..]|
        ensures xs[1..][k] != xs[0]
      {
        assert xs[1..][k] == xs[k + 1];
      }
      InsertAscends(xs[0], Sorted(xs[1..]));
    }
  }

  /** A normalised list names exactly the trimmed non-empty values, each once, in ascending order. */
  lemma NormalizedExactly(values: seq<string>)
    ensures Ascending(NormalizeList(values))
    ensures forall v :: v in NormalizeList(values) <==> Names(values, v)
  {
    CollectExactly(values);
    SortedAscends(Collect(values));
  }

  lemma {:induction false} AscendingIsUnique(a: seq<string>, b: seq<string>)
    requires Ascending(a) && Ascending(b) && forall z :: z in a <==> z in b
    ensures a == b
    decreases |a|
  {
    assert b != [] ==> b[0] in b;
    if a != [] {
      assert a[0] in b;
      assert b[0] in a;
      LessIsTotal(a[0], b[0]);
      HeadIsLeast(a, b[0]);
      HeadIsLeast(b, a[0]);
      assert a[0] == b[0];
      forall z
        ensures z in a[1..] <==> z in b[1..]
      {
        assert z in a <==> z in b;
        NotRepeated(a, z);
        NotRepeated(b, z);
      }
      AscendingIsUnique(a[1..], b[1..]);
    }
  }

  lemma HeadIsLeast(xs: seq<string>, z: string)
    requires Ascending(xs) && z in xs
    ensures z == xs[0] || Less(xs[0], z)
  {
  }

  lemma NotRepeated(xs: seq<string>, z: string)
    requires Ascending(xs) && xs != []
    ensures z in xs <==> z == xs[0] || z in xs[1..]
    ensures z in xs[1..] ==> z != xs[0]
  {
    assert xs == [xs[0]] + xs[1..];
    if z in xs[1..] {
      var k :| 0 <= k < |xs[1..]| && xs[1..][k] == z;
      LessIsTotal(xs[0], xs[k + 1]);
    }
  }

  /** Order, repetition and surrounding blanks of a configured list do not matter. */
  lemma NormalizeIgnoresSpelling(xs: seq<string>, ys: seq<string>)
    requires forall v :: Names(xs, v) <==> Names(ys, v)
    ensures NormalizeList(xs) == NormalizeList(ys)
  {
    NormalizedExactly(xs);
    NormalizedExactly(ys);
    AscendingIsUnique(NormalizeList(xs), NormalizeList(ys));
  }

  lemma NormalizeIsIdempotent(xs: seq<string>)
    ensures NormalizeList(NormalizeList(xs)) == NormalizeList(xs)
  {
    var ys := NormalizeList(xs);
    NormalizedExactly(xs);
    forall v
      ensures Names(ys, v) <==> Names(xs, v)
    {
      if Names(ys, v) {
        var y :| y in ys && Trim(y) == v;
        var x :| x in xs && Trim(x) == y;
        TrimIsTrimmed(x);
      }
      if Names(xs, v) {
        var x :| x in xs && Trim(x) == v;
        TrimIsTrimmed(x);
        assert v in ys;
      }
    }
    NormalizeIgnoresSpelling(ys, xs);
  }

  /** normalizeStringList */
  method NormalizeStringList(values: seq<string>) returns (out: seq<string>)
    ensures out == NormalizeList(values)
  {
    var seen: set<string> := {};
    out := [];
    for i := 0 to |values|
      invariant out == Collect(values[..i])
      invariant forall v :: v in seen <==> v in out
    {
      assert values[..i + 1][..i] == values[..i];
      var value := Trim(values[i]);
      if value == "" || value in seen {
        continue;
      }
      seen := seen + {value};
      out := out + [value];
    }
    assert values[..|values|] == values;
    out := Sorted(out);
  }
}
