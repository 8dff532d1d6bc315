/**
 * Sequence and string helpers shared by the extractor and the page renderer:
 * order-preserving filtering, element-wise mapping, concatenation, joining
 * with a separator and ordinal substring search.
 */
module Seqs {

  /** The elements of `s` that satisfy `p`, in their original order (LINQ's `Where`). */
  function Filter<T(!new)>(p: T -> bool, s: seq<T>): (r: seq<T>)
    ensures |r| <= |s|
    ensures forall x :: x in r <==> x in s && p(x)
  {
    if s == [] then []
    else
      var x := s[|s| - 1];
      Filter(p, s[..|s| - 1]) + (if p(x) then [x] else [])
  }

  /** `f` applied to every element of `s`, in order. */
  function Map<T, U>(f: T -> U, s: seq<T>): seq<U>
  {
    seq(|s|, i requires 0 <= i < |s| => f(s[i]))
  }

  lemma FilterSnoc<T(!new)>(p: T -> bool, s: seq<T>, x: T)
    ensures Filter(p, s + [x]) == Filter(p, s) + (if p(x) then [x] else [])
  {
    assert (s + [x])[..|s|] == s;
  }

  lemma MapSnoc<T, U>(f: T -> U, s: seq<T>, x: T)
    ensures Map(f, s + [x]) == Map(f, s) + [f(x)]
  {
  }

  /** Nothing passes the filter when no element satisfies it. */
  lemma FilterNone<T(!new)>(p: T -> bool, s: seq<T>)
    requires forall x | x in s :: !p(x)
    ensures Filter(p, s) == []
  {
  }

  /** Filtering by a weaker predicate keeps at least as many elements. */
  lemma {:induction false} FilterWeaker<T(!new)>(p: T -> bool, q: T -> bool, s: seq<T>)
    requires forall x :: p(x) ==> q(x)
    ensures |Filter(p, s)| <= |Filter(q, s)|
  {
    if s != [] {
      FilterWeaker(p, q, s[..|s| - 1]);
    }
  }

  /** The strings of `items` written one after the other. */
  function Concat(items: seq<string>): string
  {
    if items == [] then "" else Concat(items[..|items| - 1]) + items[|items| - 1]
  }

  lemma ConcatSnoc(items: seq<string>, x: string)
    ensures Concat(items + [x]) == Concat(items) + x
  {
    assert (items + [x])[..|items|] == items;
  }

  /** Appending one element to the input appends its rendering, when it is kept, to the text. */
  lemma ConcatMapFilterSnoc<T(!new)>(f: T -> string, p: T -> bool, s: seq<T>, x: T)
    ensures Concat(Map(f, Filter(p, s + [x]))) == Concat(Map(f, Filter(p, s))) + (if p(x) then f(x) else "")
  {
    FilterSnoc(p, s, x);
    if p(x) {
      MapSnoc(f, Filter(p, s), x);
      ConcatSnoc(Map(f, Filter(p, s)), f(x));
    } else {
      assert Filter(p, s) + [] == Filter(p, s);
    }
  }

  /** The total number of characters in `items`. */
  function TotalLength(items: seq<string>): nat
  {
    if items == [] then 0 else TotalLength(items[..|items| - 1]) + |items[|items| - 1]|
  }

  /** The strings of `items` with `sep` between each two neighbours, and nowhere else. */
  function Join(items: seq<string>, sep: string): string
  {
    if |items| == 0 then ""
    else if |items| == 1 then items[0]
    else Join(items[..|items| - 1], sep) + sep + items[|items| - 1]
  }

  /** Every string of `items` followed by `sep`: what a loop that appends
      an item and then a separator builds. */
  function Terminated(items: seq<string>, sep: string): string
  {
    if items == [] then "" else Terminated(items[..|items| - 1], sep) + items[|items| - 1] + sep
  }

  lemma TerminatedSnoc(items: seq<string>, x: string, sep: string)
    ensures Terminated(items + [x], sep) == Terminated(items, sep) + x + sep
  {
    assert (items + [x])[..|items|] == items;
  }

  /** Dropping the final separator from the terminated form leaves the joined form. */
  lemma {:induction false} TerminatedIsJoinThenSep(items: seq<string>, sep: string)
    requires items != []
    ensures Terminated(items, sep) == Join(items, sep) + sep
  {
    var n := |items|;
    if n == 1 {
      assert items[..0] == [];
    } else {
      TerminatedIsJoinThenSep(items[..n - 1], sep);
    }
  }

  /** A joined string holds the items and exactly one separator fewer than there are items. */
  lemma {:induction false} JoinLength(items: seq<string>, sep: string)
    requires items != []
    ensures |Join(items, sep)| == TotalLength(items) + (|items| - 1) * |sep|
  {
    var n := |items|;
    if n == 1 {
      assert items[..0] == [];
    } else {
      JoinLength(items[..n - 1], sep);
    }
  }

  /** A joined string starts with the first item and ends with the last one:
      no separator is left dangling at either end. */
  lemma {:induction false} JoinEnds(items: seq<string>, sep: string)
    requires items != []
    ensures var j := Join(items, sep);
      |items[0]| <= |j| && j[..|items[0]|] == items[0] &&
      |items[|items| - 1]| <= |j| && j[|j| - |items[|items| - 1]|..] == items[|items| - 1]
  {
    var n := |items|;
    if n > 1 {
      JoinEnds(items[..n - 1], sep);
      var p := Join(items[..n - 1], sep);
      assert Join(items, sep) == p + sep + items[n - 1];
      assert (p + sep + items[n - 1])[..|items[0]|] == p[..|items[0]|];
    }
  }

  /** `sub` occurs in `s` starting at index `i`. */
  ghost predicate OccursAt(s: string, sub: string, i: int)
  {
    0 <= i && i + |sub| <= |s| && s[i..i + |sub|] == sub
  }

  /** Ordinal substring test (`String.Contains(string)`): try every start position in turn. */
  function Contains(s: string, sub: string): bool
    decreases |s|
  {
    if |s| < |sub| then false
    else if s[..|sub|] == sub then true
    else Contains(s[1..], sub)
  }

  /** The search finds `sub` exactly when it occurs somewhere in `s`. */
  lemma {:induction false} ContainsIffOccurs(s: string, sub: string)
    ensures Contains(s, sub) <==> exists i :: OccursAt(s, sub, i)
    decreases |s|
  {
    if |s| < |sub| {
    } else if s[..|sub|] == sub {
      assert OccursAt(s, sub, 0);
    } else {
      ContainsIffOccurs(s[1..], sub);
      if Contains(s[1..], sub) {
        var i :| OccursAt(s[1..], sub, i);
        assert s[i + 1..i + 1 + |sub|] == s[1..][i..i + |sub|];
        assert OccursAt(s, sub, i + 1);
      } else {
        forall i | OccursAt(s, sub, i)
          ensures false
        {
          assert i != 0;
          assert s[1..][i - 1..i - 1 + |sub|] == s[i..i + |sub|];
          assert OccursAt(s[1..], sub, i - 1);
        }
      }
    }
  }
}
