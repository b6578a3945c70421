/** The parts of Go's `strings` and `sort` packages that the other modules rest on.
    Strings are sequences of ASCII characters: case folding is ASCII folding, and the order
    is the byte order that `sort.Strings` uses. */
module Text {

  datatype Option<+T> = None | Some(value: T)

  /* ---------- Splitting and joining ---------- */

  function IndexOf(s: string, c: char): (i: nat)
    requires c in s
    ensures i < |s| && s[i] == c && c !in s[..i]
  {
    if s[0] == c then 0
    else
      var i := IndexOf(s[1..], c);
      assert s[..i + 1] == [s[0]] + s[1..][..i];
      i + 1
  }

  /** `strings.Split` for a one-character separator. */
  function Split(s: string, sep: char): (parts: seq<string>)
    ensures |parts| > 0
    decreases |s|
  {
    if sep !in s then [s]
    else
      var i := IndexOf(s, sep);
      [s[..i]] + Split(s[i + 1..], sep)
  }

  /** `strings.SplitN`: at most `n` parts, the last of which is the unsplit remainder. */
  function SplitN(s: string, sep: char, n: nat): (parts: seq<string>)
    requires n > 0
    ensures 0 < |parts| <= n
  {
    if n == 1 || sep !in s then [s]
    else
      var i := IndexOf(s, sep);
      [s[..i]] + SplitN(s[i + 1..], sep, n - 1)
  }

  function Join(parts: seq<string>, sep: char): string {
    if |parts| == 0 then ""
    else if |parts| == 1 then parts[0]
    else parts[0] + [sep] + Join(parts[1..], sep)
  }

  /** What follows the last separator; the whole string if it has none. */
  function AfterLast(s: string, sep: char): string {
    if s == "" || Last(s) == sep then "" else AfterLast(s[..|s| - 1], sep) + [Last(s)]
  }

  function Last<T>(s: seq<T>): T
    requires |s| > 0
  {
    s[|s| - 1]
  }

  ghost predicate Clean(parts: seq<string>, sep: char) {
    forall i :: 0 <= i < |parts| ==> sep !in parts[i]
  }

  lemma IndexOfHead(a: string, sep: char, b: string)
    requires sep !in a
    ensures IndexOf(a + [sep] + b, sep) == |a|
    ensures (a + [sep] + b)[..|a|] == a && (a + [sep] + b)[|a| + 1..] == b
  {
    var s := a + [sep] + b;
    var i := IndexOf(s, sep);
    assert s[|a|] == sep;
    assert forall k :: 0 <= k < |a| ==> s[k] == a[k] && a[k] in a;
    forall k | 0 <= k < i ensures s[k] != sep {
      assert s[..i][k] == s[k];
    }
  }

  /** Splitting loses nothing, and every part is free of the separator. */
  lemma {:induction false} JoinSplit(s: string, sep: char)
    ensures Join(Split(s, sep), sep) == s
    ensures Clean(Split(s, sep), sep)
    decreases |s|
  {
    if sep in s {
      var i := IndexOf(s, sep);
      JoinSplit(s[i + 1..], sep);
      assert Split(s, sep)[1..] == Split(s[i + 1..], sep);
      assert s == s[..i] + [sep] + s[i + 1..];
    }
  }

  lemma SplitHead(a: string, sep: char, b: string)
    requires sep !in a
    ensures Split(a + [sep] + b, sep) == [a] + Split(b, sep)
  {
    IndexOfHead(a, sep, b);
    var s := a + [sep] + b;
    assert s[|a|] == sep;
  }

  lemma JoinCons(head: string, rest: seq<string>, sep: char)
    requires |rest| > 0
    ensures Join([head] + rest, sep) == head + [sep] + Join(rest, sep)
  {
    var parts := [head] + rest;
    assert parts[1..] == rest;
  }

  /** Separator-free parts are recovered exactly: `Split` is the only inverse of `Join`. */
  lemma {:induction false} SplitJoin(parts: seq<string>, sep: char)
    requires |parts| > 0 && Clean(parts, sep)
    ensures Split(Join(parts, sep), sep) == parts
    decreases |parts|
  {
    if |parts| > 1 {
      var rest := parts[1..];
      assert Clean(rest, sep);
      SplitJoin(rest, sep);
      SplitHead(parts[0], sep, Join(rest, sep));
      assert parts == [parts[0]] + rest;
      JoinCons(parts[0], rest, sep);
    }
  }

  lemma SplitLast(a: string, sep: char, b: string)
    requires sep !in b
    ensures Split(a + [sep] + b, sep) == Split(a, sep) + [b]
  {
    JoinSplit(a, sep);
    JoinAppend(Split(a, sep), b, sep);
    SplitJoin(Split(a, sep) + [b], sep);
  }

  lemma {:induction false} JoinSplitN(s: string, sep: char, n: nat)
    requires n > 0
    ensures Join(SplitN(s, sep, n), sep) == s
    decreases n
  {
    if n > 1 && sep in s {
      var i := IndexOf(s, sep);
      JoinSplitN(s[i + 1..], sep, n - 1);
      JoinCons(s[..i], SplitN(s[i + 1..], sep, n - 1), sep);
      assert s == s[..i] + [sep] + s[i + 1..];
    }
  }

  ghost predicate CleanFront(parts: seq<string>, sep: char) {
    forall i :: 0 <= i < |parts| - 1 ==> sep !in parts[i]
  }

  lemma CleanFrontCons(head: string, rest: seq<string>, sep: char)
    requires sep !in head && CleanFront(rest, sep)
    ensures CleanFront([head] + rest, sep)
  {
  }

  /** All parts but the remainder are free of the separator. */
  lemma {:induction false} SplitNClean(s: string, sep: char, n: nat)
    requires n > 0
    ensures CleanFront(SplitN(s, sep, n), sep)
    decreases n
  {
    if n > 1 && sep in s {
      var i := IndexOf(s, sep);
      SplitNClean(s[i + 1..], sep, n - 1);
      CleanFrontCons(s[..i], SplitN(s[i + 1..], sep, n - 1), sep);
    }
  }

  lemma {:induction false} SplitNJoin(parts: seq<string>, sep: char)
    requires |parts| > 0 && Clean(parts[..|parts| - 1], sep)
    ensures SplitN(Join(parts, sep), sep, |parts|) == parts
    decreases |parts|
  {
    if |parts| > 1 {
      var rest := parts[1..];
      assert rest[..|rest| - 1] == parts[..|parts| - 1][1..];
      SplitNJoin(rest, sep);
      assert parts[0] == parts[..|parts| - 1][0];
      IndexOfHead(parts[0], sep, Join(rest, sep));
      assert parts == [parts[0]] + rest;
    }
  }

  lemma {:induction false} JoinAppend(parts: seq<string>, last: string, sep: char)
    requires |parts| > 0
    ensures Join(parts + [last], sep) == Join(parts, sep) + [sep] + last
    decreases |parts|
  {
    var all := parts + [last];
    if |parts| == 1 {
      assert all[1..] == [last];
    } else {
      JoinAppend(parts[1..], last, sep);
      assert all[1..] == parts[1..] + [last];
      assert parts[0] + [sep] + (Join(parts[1..], sep) + [sep] + last)
          == (parts[0] + [sep] + Join(parts[1..], sep)) + [sep] + last;
    }
  }

  lemma JoinMiddle(parts: seq<string>, sep: char)
    requires |parts| >= 3
    ensures Join(parts, sep) == parts[0] + [sep] + (Join(parts[1..|parts| - 1], sep) + [sep] + Last(parts))
  {
    var middle := parts[1..|parts| - 1];
    assert parts == [parts[0]] + (middle + [Last(parts)]);
    JoinAppend(middle, Last(parts), sep);
    JoinCons(parts[0], middle + [Last(parts)], sep);
  }

  lemma {:induction false} AfterLastOf(a: string, sep: char, b: string)
    requires sep !in b
    ensures AfterLast(a + [sep] + b, sep) == b
    decreases |b|
  {
    var s := a + [sep] + b;
    if b != "" {
      var front := b[..|b| - 1];
      assert s[..|s| - 1] == a + [sep] + front;
      AfterLastOf(a, sep, front);
      assert b == front + [Last(b)];
    }
  }

  /** A separator-free tail determines where the last separator is. */
  lemma LastSeparatorUnique(a: string, b: string, a': string, b': string, sep: char)
    requires sep !in b && sep !in b'
    requires a + [sep] + b == a' + [sep] + b'
    ensures a == a' && b == b'
  {
    var s := a + [sep] + b;
    AfterLastOf(a, sep, b);
    AfterLastOf(a', sep, b');
    assert |a| == |a'|;
    assert a == s[..|a|] && a' == s[..|a'|];
  }

  /** A separator-free head determines where the first separator is. */
  lemma FirstSeparatorUnique(a: string, b: string, a': string, b': string, sep: char)
    requires sep !in a && sep !in a'
    requires a + [sep] + b == a' + [sep] + b'
    ensures a == a' && b == b'
  {
    IndexOfHead(a, sep, b);
    IndexOfHead(a', sep, b');
  }

  predicate HasPrefix(s: string, prefix: string) {
    prefix <= s
  }

  /* ---------- ASCII case folding ---------- */

  function LowerChar(c: char): char {
    if 'A' <= c <= 'Z' then c + 32 as char else c
  }

  function Lower(s: string): (r: string)
    ensures |r| == |s|
  {
    seq(|s|, i requires 0 <= i < |s| => LowerChar(s[i]))
  }

  /** The letters that have another case, and no other characters, are changed. */
  lemma LowerMeans(c: char)
    ensures Lower("ABCDEFGHIJKLMNOPQRSTUVWXYZ") == "abcdefghijklmnopqrstuvwxyz"
    ensures c !in "ABCDEFGHIJKLMNOPQRSTUVWXYZ" ==> LowerChar(c) == c
  {
    var upper := "ABCDEFGHIJKLMNOPQRSTUVWXYZ";
    assert forall i :: 0 <= i < 26 ==> upper[i] as int == 'A' as int + i;
    if 'A' <= c <= 'Z' {
      assert upper[c as int - 'A' as int] == c;
    }
  }

  /** `strings.EqualFold` on ASCII strings. */
  predicate EqualFold(a: string, b: string) {
    Lower(a) == Lower(b)
  }

  function LowerAll(parts: seq<string>): (r: seq<string>)
    ensures |r| == |parts|
  {
    seq(|parts|, i requires 0 <= i < |parts| => Lower(parts[i]))
  }

  ghost predicate Caseless(c: char) {
    !('A' <= c <= 'Z') && !('a' <= c <= 'z')
  }

  lemma LowerConcat(a: string, b: string)
    ensures Lower(a + b) == Lower(a) + Lower(b)
  {
  }

  lemma LowerContains(s: string, c: char)
    requires Caseless(c)
    ensures c in Lower(s) <==> c in s
  {
    if c in s {
      var i :| 0 <= i < |s| && s[i] == c;
      assert Lower(s)[i] == c;
    }
    if c in Lower(s) {
      var i :| 0 <= i < |s| && Lower(s)[i] == c;
      assert s[i] == c;
    }
  }

  lemma {:induction false} LowerJoin(parts: seq<string>, sep: char)
    requires Caseless(sep)
    ensures Lower(Join(parts, sep)) == Join(LowerAll(parts), sep)
    decreases |parts|
  {
    if |parts| > 1 {
      LowerJoin(parts[1..], sep);
      assert LowerAll(parts)[1..] == LowerAll(parts[1..]);
      LowerConcat(parts[0] + [sep], Join(parts[1..], sep));
      LowerConcat(parts[0], [sep]);
      assert Lower([sep]) == [sep];
    }
  }

  /** Folding commutes with splitting on a character that has no case. */
  lemma SplitLower(s: string, sep: char)
    requires Caseless(sep)
    ensures Split(Lower(s), sep) == LowerAll(Split(s, sep))
  {
    var parts := Split(s, sep);
    JoinSplit(s, sep);
    LowerJoin(parts, sep);
    forall i | 0 <= i < |parts| ensures sep !in LowerAll(parts)[i] {
      LowerContains(parts[i], sep);
    }
    SplitJoin(LowerAll(parts), sep);
  }

  /* ---------- Order and sorting ---------- */

  /** Byte order on strings. */
  predicate Less(a: string, b: string) {
    |b| > 0 && (|a| == 0 || a[0] < b[0] || (a[0] == b[0] && Less(a[1..], b[1..])))
  }

  /** A string is less if it is the beginning of the other or smaller where they first differ. */
  lemma {:induction false} LessMeans(a: string, b: string)
    ensures Less(a, b) <==> (a < b || exists i :: 0 <= i < |a| && i < |b| && a[..i] == b[..i] && a[i] < b[i])
    decreases |a|
  {
    if |a| > 0 && |b| > 0 && a[0] == b[0] {
      var x, y := a[1..], b[1..];
      LessMeans(x, y);
      assert a == [a[0]] + x && b == [a[0]] + y;
      if i :| 0 <= i < |x| && i < |y| && x[..i] == y[..i] && x[i] < y[i] {
        assert a[..i + 1] == [a[0]] + x[..i] && b[..i + 1] == [a[0]] + y[..i];
      }
      if i :| 0 <= i < |a| && i < |b| && a[..i] == b[..i] && a[i] < b[i] {
        assert x[..i - 1] == a[..i][1..] && y[..i - 1] == b[..i][1..];
      }
    } else if |a| > 0 && |b| > 0 && a[0] < b[0] {
      assert a[..0] == b[..0];
    }
  }

  lemma {:induction false} LessTotal(a: string, b: string)
    ensures a == b || Less(a, b) || Less(b, a)
    ensures !(Less(a, b) && Less(b, a)) && !Less(a, a)
    decreases |a|
  {
    if |a| > 0 {
      LessTotal(a[1..], a[1..]);
      if |b| > 0 {
        LessTotal(a[1..], b[1..]);
        if a[0] == b[0] && a[1..] == b[1..] {
          assert a == [a[0]] + a[1..] && b == [b[0]] + b[1..];
        }
      }
    }
  }

  lemma {:induction false} LessTransitive(a: string, b: string, c: string)
    requires Less(a, b) && Less(b, c)
    ensures Less(a, c)
    decreases |a|
  {
    if |a| > 0 && a[0] == b[0] && b[0] == c[0] {
      LessTransitive(a[1..], b[1..], c[1..]);
    }
  }

  /** What a comparison must satisfy for sorting to make sense. */
  ghost predicate WeakOrder<T(!new)>(less: (T, T) -> bool) {
    && (forall a, b :: less(a, b) ==> !less(b, a))
    && (forall a, b, c :: less(a, b) ==> less(a, c) || less(c, b))
  }

  lemma StringOrder()
    ensures WeakOrder(Less)
  {
    forall a: string, b: string | Less(a, b) ensures !Less(b, a) {
      LessTotal(a, b);
    }
    forall a: string, b: string, c: string | Less(a, b) ensures Less(a, c) || Less(c, b) {
      LessTotal(a, c);
      if a == c {
      } else if Less(c, a) {
        LessTransitive(c, a, b);
      }
    }
  }

  ghost predicate Sorted<T>(s: seq<T>, less: (T, T) -> bool) {
    forall i, j :: 0 <= i < j < |s| ==> !less(s[j], s[i])
  }

  ghost predicate StrictlySorted<T>(s: seq<T>, less: (T, T) -> bool) {
    forall i, j :: 0 <= i < j < |s| ==> less(s[i], s[j])
  }

  function Insert<T>(x: T, s: seq<T>, less: (T, T) -> bool): seq<T> {
    if |s| == 0 then [x]
    else if less(s[0], x) then [s[0]] + Insert(x, s[1..], less)
    else [x] + s
  }

  /** `sort.Slice`, as an insertion sort. */
  function Sort<T>(s: seq<T>, less: (T, T) -> bool): seq<T> {
    if |s| == 0 then [] else Insert(s[0], Sort(s[1..], less), less)
  }

  lemma {:induction false} InsertPermutes<T(!new)>(x: T, s: seq<T>, less: (T, T) -> bool)
    ensures multiset(Insert(x, s, less)) == multiset(s) + multiset{x}
    ensures forall y :: y in Insert(x, s, less) ==> y == x || y in s
    decreases |s|
  {
    if |s| > 0 {
      assert s == [s[0]] + s[1..];
      InsertPermutes(x, s[1..], less);
    }
  }

  lemma SortedCons<T(!new)>(x: T, s: seq<T>, less: (T, T) -> bool)
    requires Sorted(s, less) && forall y :: y in s ==> !less(y, x)
    ensures Sorted([x] + s, less)
  {
  }

  lemma {:induction false} InsertSorts<T(!new)>(x: T, s: seq<T>, less: (T, T) -> bool)
    requires WeakOrder(less) && Sorted(s, less)
    ensures Sorted(Insert(x, s, less), less)
    decreases |s|
  {
    if |s| > 0 {
      var head, rest := s[0], s[1..];
      if less(head, x) {
        InsertSorts(x, rest, less);
        InsertPermutes(x, rest, less);
        forall y | y in Insert(x, rest, less) ensures !less(y, head) {
          assert y == x || y in rest;
        }
        SortedCons(head, Insert(x, rest, less), less);
      } else {
        forall y | y in s ensures !less(y, x) {
          assert less(y, x) ==> less(y, head) || less(head, x);
        }
        SortedCons(x, s, less);
      }
    }
  }

  /** Sorting yields a sorted permutation. */
  lemma {:induction false} SortSorts<T(!new)>(s: seq<T>, less: (T, T) -> bool)
    requires WeakOrder(less)
    ensures Sorted(Sort(s, less), less)
    ensures multiset(Sort(s, less)) == multiset(s)
    ensures forall x :: x in Sort(s, less) <==> x in s
    ensures |Sort(s, less)| == |s|
    decreases |s|
  {
    if |s| > 0 {
      SortSorts(s[1..], less);
      InsertSorts(s[0], Sort(s[1..], less), less);
      InsertPermutes(s[0], Sort(s[1..], less), less);
      assert s == [s[0]] + s[1..];
    }
    SamePermutation(Sort(s, less), s);
  }

  lemma SamePermutation<T(!new)>(a: seq<T>, b: seq<T>)
    requires multiset(a) == multiset(b)
    ensures forall x :: x in a <==> x in b
    ensures |a| == |b|
  {
    assert |multiset(a)| == |a| && |multiset(b)| == |b|;
    assert forall x :: x in a <==> x in multiset(a);
    assert forall x :: x in b <==> x in multiset(b);
  }

  ghost predicate NoDuplicates<T>(s: seq<T>) {
    forall i, j :: 0 <= i < j < |s| ==> s[i] != s[j]
  }

  lemma {:induction false} NoDuplicatesMultiset<T(!new)>(s: seq<T>)
    ensures NoDuplicates(s) <==> (forall x :: multiset(s)[x] <= 1)
    decreases |s|
  {
    if |s| > 0 {
      var t := s[1..];
      NoDuplicatesMultiset(t);
      assert s == [s[0]] + t;
      assert multiset(s) == multiset{s[0]} + multiset(t);
      assert s[0] in t <==> multiset(t)[s[0]] > 0;
      if NoDuplicates(s) {
        assert NoDuplicates(t) by {
          forall i, j | 0 <= i < j < |t| ensures t[i] != t[j] { assert t[i] == s[i + 1] && t[j] == s[j + 1]; }
        }
        assert s[0] !in t;
      } else if NoDuplicates(t) {
        forall i, j | 0 < i < j < |s| ensures s[i] != s[j] {
          assert t[i - 1] == s[i] && t[j - 1] == s[j];
        }
        var i, j :| 0 <= i < j < |s| && s[i] == s[j];
        assert t[j - 1] == s[0];
        assert multiset(s)[s[0]] > 1;
      } else {
        var x :| multiset(t)[x] > 1;
        assert multiset(s)[x] > 1;
      }
    }
  }

  /** A permutation of a duplicate-free sequence is duplicate-free. */
  lemma PermutationNoDuplicates<T(!new)>(a: seq<T>, b: seq<T>)
    requires multiset(a) == multiset(b) && NoDuplicates(a)
    ensures NoDuplicates(b)
  {
    NoDuplicatesMultiset(a);
    NoDuplicatesMultiset(b);
  }

  /** Two strictly sorted sequences with the same elements are the same sequence. */
  lemma {:induction false} SortedUnique<T(!new)>(a: seq<T>, b: seq<T>, less: (T, T) -> bool)
    requires WeakOrder(less)
    requires StrictlySorted(a, less) && StrictlySorted(b, less)
    requires forall x :: x in a <==> x in b
    ensures a == b
    decreases |a|
  {
    if |b| > 0 {
      assert b[0] in a;
    }
    if |a| > 0 {
      SortedHeads(a, b, less);
      SortedUnique(a[1..], b[1..], less);
      assert a == [a[0]] + a[1..] && b == [b[0]] + b[1..];
    }
  }

  lemma SortedHeads<T(!new)>(a: seq<T>, b: seq<T>, less: (T, T) -> bool)
    requires WeakOrder(less) && |a| > 0
    requires StrictlySorted(a, less) && StrictlySorted(b, less)
    requires forall x :: x in a <==> x in b
    ensures |b| > 0 && a[0] == b[0]
    ensures forall x :: x in a[1..] <==> x in b[1..]
  {
    assert a[0] in b && b[0] in a;
    forall x ensures x in a[1..] <==> x in a && x != a[0] {
      TailElements(a, less, x);
    }
    forall x ensures x in b[1..] <==> x in b && x != b[0] {
      TailElements(b, less, x);
    }
  }

  lemma TailElements<T(!new)>(s: seq<T>, less: (T, T) -> bool, x: T)
    requires WeakOrder(less) && |s| > 0 && StrictlySorted(s, less)
    ensures x in s[1..] <==> x in s && x != s[0]
    ensures x in s ==> x == s[0] || less(s[0], x)
  {
    assert s == [s[0]] + s[1..];
    if x in s[1..] {
      var i :| 0 <= i < |s| - 1 && s[1..][i] == x;
      assert less(s[0], s[i + 1]);
    }
  }

  /** Sorting a duplicate-free list under an order that separates its elements is strict, so the
      result depends only on which elements the list has. */
  lemma SortStrict<T(!new)>(s: seq<T>, less: (T, T) -> bool)
    requires WeakOrder(less) && NoDuplicates(s)
    requires forall x, y :: x in s && y in s && x != y ==> less(x, y) || less(y, x)
    ensures StrictlySorted(Sort(s, less), less)
  {
    SortSorts(s, less);
    PermutationNoDuplicates(s, Sort(s, less));
  }

  lemma SortStringsStrict(s: seq<string>)
    requires NoDuplicates(s)
    ensures StrictlySorted(Sort(s, Less), Less)
    ensures forall x :: x in Sort(s, Less) <==> x in s
  {
    StringOrder();
    forall x, y | x in s && y in s && x != y ensures Less(x, y) || Less(y, x) {
      LessTotal(x, y);
    }
    SortStrict(s, Less);
    SortSorts(s, Less);
  }

  lemma SeqOfSet(S: set<string>) returns (s: seq<string>)
    ensures NoDuplicates(s) && (forall x :: x in s <==> x in S) && |s| == |S|
    decreases S
  {
    if S == {} {
      s := [];
    } else {
      var x :| x in S;
      var t := SeqOfSet(S - {x});
      s := [x] + t;
    }
  }
}
