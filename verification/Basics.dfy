/** Nullable values, filters and the order on texts that the other modules share. */
module Basics {

  datatype Option<+T> = None | Some(value: T)

  /** JavaScript truthiness of a nullable text: present and not empty. */
  predicate Present(text: Option<string>) {
    text.Some? && text.value != ""
  }

  predicate IsBlank(c: char) {
    c == ' ' || c == '\t' || c == '\n' || c == '\r'
  }

  /** Something is left of the text after trimming. */
  predicate HasInk(text: string) {
    text != "" && (!IsBlank(text[0]) || HasInk(text[1..]))
  }

  predicate HasText(text: Option<string>) {
    text.Some? && HasInk(text.value)
  }

  lemma HasTextIsPresent(text: Option<string>)
    ensures HasText(text) ==> Present(text)
  {
  }

  function Filter<T(!new)>(s: seq<T>, p: T -> bool): (r: seq<T>)
    ensures forall x :: x in r <==> x in s && p(x)
  {
    if s == [] then []
    else
      var init := Filter(s[..|s| - 1], p);
      if p(s[|s| - 1]) then init + [s[|s| - 1]] else init
  }

  lemma FilterAppend<T(!new)>(s: seq<T>, x: T, p: T -> bool)
    ensures Filter(s + [x], p) == Filter(s, p) + (if p(x) then [x] else [])
  {
    assert (s + [x])[..|s|] == s;
  }

  lemma {:induction false} FilterConcat<T(!new)>(s: seq<T>, t: seq<T>, p: T -> bool)
    ensures Filter(s + t, p) == Filter(s, p) + Filter(t, p)
  {
    if t == [] {
      assert s + t == s;
    } else {
      var init, last := t[..|t| - 1], t[|t| - 1];
      assert t == init + [last] && s + t == (s + init) + [last];
      FilterConcat(s, init, p);
      FilterAppend(s + init, last, p);
      FilterAppend(init, last, p);
    }
  }

  lemma {:induction false} FilterNone<T(!new)>(s: seq<T>, p: T -> bool)
    requires forall x :: x in s ==> !p(x)
    ensures Filter(s, p) == []
  {
    if s == [] {
    } else {
      FilterNone(s[..|s| - 1], p);
    }
  }

  lemma {:induction false} FilterCongruence<T(!new)>(s: seq<T>, p: T -> bool, q: T -> bool)
    requires forall x :: x in s ==> p(x) == q(x)
    ensures Filter(s, p) == Filter(s, q)
  {
    if s == [] {
      assert Filter(s, p) == [];
    } else {
      FilterCongruence(s[..|s| - 1], p, q);
    }
  }

  /** A filter keeps the multiplicity of what it lets through. */
  lemma {:induction false} FilterMultiplicity<T(!new)>(s: seq<T>, p: T -> bool, x: T)
    ensures multiset(Filter(s, p))[x] == if p(x) then multiset(s)[x] else 0
  {
    if s == [] {
    } else {
      var init, last := s[..|s| - 1], s[|s| - 1];
      assert s == init + [last];
      FilterMultiplicity(init, p, x);
      FilterAppend(init, last, p);
    }
  }

  /** What a filter returns, order aside, depends on the multiset it is given. */
  lemma FilterPermutation<T(!new)>(s: seq<T>, t: seq<T>, p: T -> bool)
    requires multiset(s) == multiset(t)
    ensures multiset(Filter(s, p)) == multiset(Filter(t, p))
    ensures |Filter(s, p)| == |Filter(t, p)|
  {
    forall x ensures multiset(Filter(s, p))[x] == multiset(Filter(t, p))[x] {
      FilterMultiplicity(s, p, x);
      FilterMultiplicity(t, p, x);
    }
    assert multiset(Filter(s, p)) == multiset(Filter(t, p));
    assert |multiset(Filter(s, p))| == |Filter(s, p)| && |multiset(Filter(t, p))| == |Filter(t, p)|;
  }

  /** Two matching positions leave two matches. */
  lemma {:induction false} FilterTwice<T(!new)>(s: seq<T>, p: T -> bool, i: nat, j: nat)
    requires i < j < |s| && p(s[i]) && p(s[j])
    ensures |Filter(s, p)| >= 2
  {
    if j < |s| - 1 {
      FilterTwice(s[..|s| - 1], p, i, j);
    } else {
      assert s[i] in s[..|s| - 1];
      assert s[i] in Filter(s[..|s| - 1], p);
    }
  }

  /** Where no two positions match, at most one entry does. */
  lemma {:induction false} AtMostOne<T(!new)>(s: seq<T>, p: T -> bool)
    requires forall i, j :: 0 <= i < j < |s| ==> !(p(s[i]) && p(s[j]))
    ensures |Filter(s, p)| <= 1
  {
    if s == [] {
      assert Filter(s, p) == [];
    } else {
      var init, last := s[..|s| - 1], s[|s| - 1];
      AtMostOne(init, p);
      if p(last) {
        forall x | x in init ensures !p(x) {
          var i :| 0 <= i < |init| && init[i] == x;
          assert s[i] == x;
        }
        FilterNone(init, p);
      }
    }
  }

  function Both<T(!new)>(p: T -> bool, q: T -> bool): T -> bool {
    x => p(x) && q(x)
  }

  lemma AtMostOneOfBoth<T(!new)>(s: seq<T>, p: T -> bool, q: T -> bool)
    requires forall i, j :: 0 <= i < j < |s| ==> !(p(s[i]) && q(s[i]) && p(s[j]) && q(s[j]))
    ensures |Filter(Filter(s, p), q)| <= 1
  {
    FilterTwiceIsBoth(s, p, q);
    AtMostOne(s, Both(p, q));
  }

  lemma {:induction false} FilterTwiceIsBoth<T(!new)>(s: seq<T>, p: T -> bool, q: T -> bool)
    ensures Filter(Filter(s, p), q) == Filter(s, Both(p, q))
  {
    if s == [] {
      assert Filter(s, p) == [];
    } else {
      var init, last := s[..|s| - 1], s[|s| - 1];
      FilterTwiceIsBoth(init, p, q);
      if p(last) {
        FilterAppend(Filter(init, p), last, q);
      }
    }
  }

  /** The members of a list, each once, in order of first occurrence. */
  function Distinct<T(==,!new)>(s: seq<T>): (r: seq<T>)
    ensures forall x :: x in r <==> x in s
    ensures NoDuplicates(r)
  {
    if s == [] then []
    else
      var init := Distinct(s[..|s| - 1]);
      if s[|s| - 1] in init then init else init + [s[|s| - 1]]
  }

  predicate NoDuplicates<T(==)>(s: seq<T>) {
    forall i, j :: 0 <= i < j < |s| ==> s[i] != s[j]
  }

  /** Duplicate-free lists with the same members have the same length. */
  lemma SameMembersSameLength<T(!new)>(s: seq<T>, t: seq<T>)
    requires NoDuplicates(s) && NoDuplicates(t)
    requires forall x :: x in s <==> x in t
    ensures |s| == |t|
  {
    CardinalityOfMembers(s);
    CardinalityOfMembers(t);
    assert (set x | x in s) == (set x | x in t);
  }

  lemma {:induction false} CardinalityOfMembers<T(!new)>(s: seq<T>)
    requires NoDuplicates(s)
    ensures |set x | x in s| == |s|
  {
    if s == [] {
    } else {
      var init, last := s[..|s| - 1], s[|s| - 1];
      CardinalityOfMembers(init);
      assert s == init + [last];
      assert (set x | x in s) == (set x | x in init) + {last};
    }
  }

  /** Lexicographic order on texts; stands for the collation order the program sorts by. */
  predicate TextLess(a: string, b: string) {
    b != "" && (a == "" || a[0] < b[0] || (a[0] == b[0] && TextLess(a[1..], b[1..])))
  }

  lemma {:induction false} TextLessIsStrictOrder(a: string, b: string, c: string)
    ensures !TextLess(a, a)
    ensures TextLess(a, b) && TextLess(b, c) ==> TextLess(a, c)
    ensures TextLess(a, b) || a == b || TextLess(b, a)
  {
    if a == "" {
    } else {
      TextLessIsStrictOrder(a[1..], if b == "" then "" else b[1..], if c == "" then "" else c[1..]);
      if b != "" && a[0] == b[0] && a[1..] == b[1..] {
        assert a == [a[0]] + a[1..] && b == [b[0]] + b[1..];
      }
    }
  }
}
