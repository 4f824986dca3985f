/** Small facts about sequences that the proofs use as rewriting steps. */
module SeqFacts {

  lemma Assoc<T>(x: seq<T>, y: seq<T>, z: seq<T>)
    ensures (x + y) + z == x + (y + z)
  {
  }

  lemma EmptyLeft<T>(x: seq<T>)
    ensures [] + x == x
  {
  }

  lemma EmptyRight<T>(x: seq<T>)
    ensures x + [] == x
  {
  }

  lemma HeadTail<T>(h: T, t: seq<T>)
    ensures [h] + t != [] && ([h] + t)[0] == h && ([h] + t)[1..] == t
  {
  }

  lemma Recompose<T>(xs: seq<T>)
    requires xs != []
    ensures [xs[0]] + xs[1..] == xs
  {
  }

  lemma ConsTail<T>(x: seq<T>, y: seq<T>)
    requires x != []
    ensures (x + y)[0] == x[0] && (x + y)[1..] == x[1..] + y
  {
  }

  /** `s` cut where its suffix `u` starts, and `u` cut after its prefix
      `r`. */
  lemma Decompose<T>(s: seq<T>, u: seq<T>, r: seq<T>)
    requires |u| <= |s| && u == s[|s| - |u|..]
    requires |r| <= |u| && r == u[..|r|]
    ensures s == s[..|s| - |u|] + r + u[|r|..]
  {
    assert u == r + u[|r|..];
  }

  /** A suffix `r` of a suffix `t` of `s`, located in `s`. */
  lemma SuffixOfSuffix<T>(s: seq<T>, i: nat, t: seq<T>, r: seq<T>)
    requires i <= |s| && t == s[i..]
    requires |r| <= |t| && r == t[|t| - |r|..]
    ensures |r| <= |s| - i
    ensures r == s[|s| - |r|..]
    ensures t[..|t| - |r|] == s[i..|s| - |r|]
  {
  }

  lemma TakeOfConcat<T>(x: seq<T>, y: seq<T>, i: nat)
    requires i <= |x|
    ensures (x + y)[..i] == x[..i]
  {
  }

  lemma DropOfConcat<T>(x: seq<T>, y: seq<T>, i: nat)
    requires i <= |x|
    ensures (x + y)[i..] == x[i..] + y
  {
  }

  lemma JoinParts<T>(x: seq<T>, m: seq<T>, y: seq<T>)
    ensures (x + m + y)[..|x|] == x
    ensures (x + m + y)[|x| + |m|..] == y
  {
  }

  lemma ConsInit<T>(h: T, xs: seq<T>)
    requires xs != []
    ensures ([h] + xs)[..|xs|] == [h] + xs[..|xs| - 1]
    ensures ([h] + xs)[|xs|] == xs[|xs| - 1]
  {
  }

  lemma InitLast<T>(xs: seq<T>)
    requires xs != []
    ensures xs == xs[..|xs| - 1] + [xs[|xs| - 1]]
  {
  }

  lemma Singleton<T>(xs: seq<T>, x: T)
    requires |xs| == 1 && xs[0] == x
    ensures xs == [x]
  {
  }
}
