/**
 * The breadth-first search of find_conversion_chain over an abstract
 * graph: start nodes, the successors of each node in order, and a goal
 * test.  Round k of the search holds the chains of k nodes, built by
 * extending each chain of round k - 1, in order, by each successor of its
 * last node that it does not already contain.  The search returns the
 * first chain, in that order, whose last node passes the goal test.
 */
module Paths {
  import opened Wrappers
  import Seqs

  datatype Graph<!T> = Graph(first: seq<T>, next: T -> seq<T>, goal: T -> bool)

  /** The first node is a start node and each later one a successor of the one before. */
  ghost predicate Linked<T>(g: Graph<T>, ch: seq<T>) {
    |ch| >= 1
    && ch[0] in g.first
    && forall i :: 0 <= i < |ch| - 1 ==> ch[i + 1] in g.next(ch[i])
  }

  /** No node occurs twice. */
  ghost predicate Simple<T>(ch: seq<T>) {
    forall i, j :: 0 <= i < j < |ch| ==> ch[i] != ch[j]
  }

  /** The last node passes the goal test. */
  predicate Reaches<T>(g: Graph<T>, ch: seq<T>) {
    |ch| >= 1 && g.goal(ch[|ch| - 1])
  }

  ghost predicate Valid<T>(g: Graph<T>, ch: seq<T>) {
    Linked(g, ch) && Reaches(g, ch)
  }

  function Singletons<T>(cs: seq<T>): (r: seq<seq<T>>)
    ensures |r| == |cs| && forall i :: 0 <= i < |cs| ==> r[i] == [cs[i]]
  {
    seq(|cs|, i requires 0 <= i < |cs| => [cs[i]])
  }

  /** chain + [c] for every c of cs not already in chain, in the order of cs. */
  function ExtendWith<T(==)>(chain: seq<T>, cs: seq<T>): seq<seq<T>>
    decreases |cs|
  {
    if cs == [] then []
    else
      var last := cs[|cs| - 1];
      ExtendWith(chain, cs[..|cs| - 1]) + (if last !in chain then [chain + [last]] else [])
  }

  /** The chains one round builds from chain. */
  function Successors<T(==)>(g: Graph<T>, chain: seq<T>): seq<seq<T>> {
    if chain == [] then [] else ExtendWith(chain, g.next(chain[|chain| - 1]))
  }

  /** The chains one round builds from all of chains, chain by chain. */
  function Extend<T(==)>(g: Graph<T>, chains: seq<seq<T>>): seq<seq<T>>
    decreases |chains|
  {
    if chains == [] then []
    else Extend(g, chains[..|chains| - 1]) + Successors(g, chains[|chains| - 1])
  }

  /** The chains of k nodes, in the order the search builds them. */
  function Level<T(==)>(g: Graph<T>, k: nat): seq<seq<T>>
    decreases k
  {
    if k <= 1 then Singletons(g.first) else Extend(g, Level(g, k - 1))
  }

  /** The first chain of the list that reaches the goal. */
  function FirstReaching<T>(g: Graph<T>, chains: seq<seq<T>>): Option<seq<T>> {
    if chains == [] then None
    else if Reaches(g, chains[0]) then Some(chains[0])
    else FirstReaching(g, chains[1..])
  }

  /** The rounds after round k, n of them still to go; [] once they are used up. */
  function Rounds<T(==)>(g: Graph<T>, k: nat, n: int): seq<T>
    decreases n
  {
    if n <= 0 then []
    else
      match FirstReaching(g, Level(g, k + 1))
      case Some(ch) => ch
      case None => Rounds(g, k + 1, n - 1)
  }

  /** The first round, then limit - 1 more. */
  function Search<T(==)>(g: Graph<T>, limit: int): seq<T> {
    match FirstReaching(g, Level(g, 1))
    case Some(ch) => ch
    case None => Rounds(g, 1, limit - 1)
  }

  /** The number of rounds the search does for a limit. */
  function MaxLength(limit: int): nat {
    if limit < 1 then 1 else limit
  }

  // ---------------------------------------------------------------------
  // Which chains each round holds

  lemma {:induction false} FirstReachingSpec<T>(g: Graph<T>, chains: seq<seq<T>>)
    ensures var r := FirstReaching(g, chains);
      && (r.Some? ==> r.value in chains && Reaches(g, r.value))
      && (r.None? <==> forall i :: 0 <= i < |chains| ==> !Reaches(g, chains[i]))
  {
    if chains != [] && !Reaches(g, chains[0]) {
      FirstReachingSpec(g, chains[1..]);
      assert forall i :: 1 <= i < |chains| ==> chains[i] == chains[1..][i - 1];
    }
  }

  lemma {:induction false} ExtendWithMember<T>(chain: seq<T>, cs: seq<T>, ch: seq<T>)
    ensures ch in ExtendWith(chain, cs) <==>
      (|ch| == |chain| + 1 && ch[..|chain|] == chain && ch[|chain|] in cs && ch[|chain|] !in chain)
    decreases |cs|
  {
    if cs != [] {
      var init := cs[..|cs| - 1];
      var last := cs[|cs| - 1];
      ExtendWithMember(chain, init, ch);
      assert cs == init + [last];
      if |ch| == |chain| + 1 && ch[..|chain|] == chain {
        assert ch == chain + [ch[|chain|]];
      }
    }
  }

  lemma SuccessorsMember<T>(g: Graph<T>, chain: seq<T>, ch: seq<T>)
    ensures ch in Successors(g, chain) <==>
      (|ch| >= 2 && ch[..|ch| - 1] == chain
       && ch[|ch| - 1] in g.next(ch[|ch| - 2]) && ch[|ch| - 1] !in chain)
  {
    if chain != [] {
      ExtendWithMember(chain, g.next(chain[|chain| - 1]), ch);
      if |ch| == |chain| + 1 && ch[..|chain|] == chain {
        assert ch[|ch| - 2] == chain[|chain| - 1];
      }
    }
  }

  lemma {:induction false} ExtendMember<T>(g: Graph<T>, chains: seq<seq<T>>, ch: seq<T>)
    ensures ch in Extend(g, chains) <==>
      (|ch| >= 2 && ch[..|ch| - 1] in chains
       && ch[|ch| - 1] in g.next(ch[|ch| - 2]) && ch[|ch| - 1] !in ch[..|ch| - 1])
    decreases |chains|
  {
    if chains != [] {
      var init := chains[..|chains| - 1];
      var last := chains[|chains| - 1];
      ExtendMember(g, init, ch);
      SuccessorsMember(g, last, ch);
      assert chains == init + [last];
    }
  }

  /** A chain of two or more is simple and linked exactly when its prefix is and its last link holds. */
  lemma SnocLinkedSimple<T>(g: Graph<T>, ch: seq<T>)
    requires |ch| >= 2
    ensures Linked(g, ch) && Simple(ch) <==>
      (Linked(g, ch[..|ch| - 1]) && Simple(ch[..|ch| - 1])
       && ch[|ch| - 1] in g.next(ch[|ch| - 2]) && ch[|ch| - 1] !in ch[..|ch| - 1])
  {
    var p := ch[..|ch| - 1];
    if Linked(g, ch) && Simple(ch) {
      assert Linked(g, p) by {
        forall i | 0 <= i < |p| - 1 ensures p[i + 1] in g.next(p[i]) {
          assert p[i] == ch[i] && p[i + 1] == ch[i + 1];
        }
      }
      assert ch[|ch| - 1] !in p by {
        forall i | 0 <= i < |p| ensures p[i] != ch[|ch| - 1] {
          assert p[i] == ch[i];
        }
      }
    }
    if Linked(g, p) && Simple(p) && ch[|ch| - 1] in g.next(ch[|ch| - 2]) && ch[|ch| - 1] !in p {
      assert Linked(g, ch) by {
        forall i | 0 <= i < |ch| - 1 ensures ch[i + 1] in g.next(ch[i]) {
          if i < |ch| - 2 {
            assert p[i] == ch[i] && p[i + 1] == ch[i + 1];
          }
        }
      }
      assert Simple(ch) by {
        forall i, j | 0 <= i < j < |ch| ensures ch[i] != ch[j] {
          if j < |ch| - 1 {
            assert p[i] == ch[i] && p[j] == ch[j];
          } else {
            assert ch[i] == p[i];
          }
        }
      }
    }
  }

  lemma LevelOneMember<T>(g: Graph<T>, ch: seq<T>)
    ensures ch in Level(g, 1) <==> (|ch| == 1 && Linked(g, ch) && Simple(ch))
  {
    if ch in Level(g, 1) {
      var i :| 0 <= i < |g.first| && Singletons(g.first)[i] == ch;
    }
    if |ch| == 1 && Linked(g, ch) {
      var i :| 0 <= i < |g.first| && g.first[i] == ch[0];
      assert ch == [g.first[i]];
    }
  }

  /** Round k holds exactly the simple linked chains of k nodes. */
  lemma {:induction false} LevelMember<T>(g: Graph<T>, k: nat, ch: seq<T>)
    requires k >= 1
    ensures ch in Level(g, k) <==> (|ch| == k && Linked(g, ch) && Simple(ch))
    decreases k
  {
    if k == 1 {
      LevelOneMember(g, ch);
    } else {
      ExtendMember(g, Level(g, k - 1), ch);
      if |ch| >= 2 {
        LevelMember(g, k - 1, ch[..|ch| - 1]);
        SnocLinkedSimple(g, ch);
      }
    }
  }

  // ---------------------------------------------------------------------
  // What the rounds compute
  //
  // The reasoning about rounds only needs what each round finds, so it is
  // done over an arbitrary f, f(k) being what round k finds, and then
  // applied to Finds(g).

  /** What round k finds: its first chain that reaches the goal. */
  ghost function Finds<T>(g: Graph<T>): nat -> Option<seq<T>> {
    (k: nat) => FirstReaching(g, Level(g, k))
  }

  /** None of rounds 1 to k - 1 finds a chain. */
  ghost predicate NoneBefore<T>(f: nat -> Option<seq<T>>, k: nat)
    decreases k
  {
    k <= 1 || (NoneBefore(f, k - 1) && f(k - 1).None?)
  }

  lemma {:induction false} NoneAt<T>(f: nat -> Option<seq<T>>, k: nat, j: nat)
    requires NoneBefore(f, k) && 1 <= j < k
    ensures f(j).None?
    decreases k
  {
    if j < k - 1 {
      NoneAt(f, k - 1, j);
    }
  }

  /**
   * r is what looking at rounds lo..hi in turn finds: the chain of the
   * first round that finds one, or [] when none of them does.
   */
  ghost predicate FirstOf<T>(f: nat -> Option<seq<T>>, r: seq<T>, lo: nat, hi: nat) {
    && (r != [] ==> lo <= |r| <= hi && f(|r|) == Some(r) && NoneBefore(f, |r|))
    && (r == [] ==> NoneBefore(f, hi + 1))
  }

  /** Each round finds only chains of as many nodes as its number. */
  ghost predicate FindsOfLength<T>(f: nat -> Option<seq<T>>) {
    forall k: nat :: k >= 1 && f(k).Some? ==> |f(k).value| == k
  }

  /** Rounds k + 1 to k + n of f in turn; [] once they are used up. */
  ghost function RoundsOf<T>(f: nat -> Option<seq<T>>, k: nat, n: int): seq<T>
    decreases n
  {
    if n <= 0 then []
    else
      match f(k + 1)
      case Some(ch) => ch
      case None => RoundsOf(f, k + 1, n - 1)
  }

  lemma {:induction false} RoundsOfFirst<T>(f: nat -> Option<seq<T>>, k: nat, n: nat)
    requires k >= 1 && FindsOfLength(f) && NoneBefore(f, k + 1)
    ensures FirstOf(f, RoundsOf(f, k, n), k + 1, k + n)
    decreases n
  {
    if n > 0 && f(k + 1).None? {
      RoundsOfFirst(f, k + 1, n - 1);
    }
  }

  /** What round k finds has k nodes. */
  lemma FoundLength<T>(g: Graph<T>, k: nat)
    requires k >= 1 && FirstReaching(g, Level(g, k)).Some?
    ensures |FirstReaching(g, Level(g, k)).value| == k
  {
    FirstReachingSpec(g, Level(g, k));
    LevelMember(g, k, FirstReaching(g, Level(g, k)).value);
  }

  lemma FindsLength<T>(g: Graph<T>)
    ensures FindsOfLength(Finds(g))
  {
    forall k: nat | k >= 1 && Finds(g)(k).Some?
      ensures |Finds(g)(k).value| == k
    {
      FoundLength(g, k);
    }
  }

  lemma RoundsOfStep<T>(f: nat -> Option<seq<T>>, k: nat, n: int)
    ensures n <= 0 ==> RoundsOf(f, k, n) == []
    ensures n > 0 && f(k + 1).Some? ==> RoundsOf(f, k, n) == f(k + 1).value
    ensures n > 0 && f(k + 1).None? ==> RoundsOf(f, k, n) == RoundsOf(f, k + 1, n - 1)
  {
  }

  /** f tells what each round of g finds. */
  ghost predicate TellsFinds<T>(g: Graph<T>, f: nat -> Option<seq<T>>) {
    forall j: nat :: f(j) == FirstReaching(g, Level(g, j))
  }

  lemma FindsAt<T>(g: Graph<T>, k: nat)
    ensures Finds(g)(k) == FirstReaching(g, Level(g, k))
  {
  }

  lemma FindsTells<T>(g: Graph<T>)
    ensures TellsFinds(g, Finds(g))
  {
    forall j: nat
      ensures Finds(g)(j) == FirstReaching(g, Level(g, j))
    {
      FindsAt(g, j);
    }
  }

  /** Where the rounds stop at round k + 1, both readings stop there with the same result. */
  lemma RoundsAgreeHere<T>(g: Graph<T>, f: nat -> Option<seq<T>>, k: nat, n: int)
    requires TellsFinds(g, f)
    requires n <= 0 || FirstReaching(g, Level(g, k + 1)).Some?
    ensures Rounds(g, k, n) == RoundsOf(f, k, n)
  {
    RoundsStep(g, k, n);
    RoundsOfStep(f, k, n);
    assert f(k + 1) == FirstReaching(g, Level(g, k + 1));
  }

  /** Where round k + 1 finds nothing, both readings go on to round k + 2 alike. */
  lemma RoundsAgreeNext<T>(g: Graph<T>, f: nat -> Option<seq<T>>, k: nat, n: int)
    requires TellsFinds(g, f)
    requires n > 0 && FirstReaching(g, Level(g, k + 1)).None?
    requires Rounds(g, k + 1, n - 1) == RoundsOf(f, k + 1, n - 1)
    ensures Rounds(g, k, n) == RoundsOf(f, k, n)
  {
    RoundsStep(g, k, n);
    RoundsOfStep(f, k, n);
    assert f(k + 1) == FirstReaching(g, Level(g, k + 1));
  }

  lemma {:induction false} RoundsAreRoundsOf<T>(g: Graph<T>, f: nat -> Option<seq<T>>, k: nat, n: int)
    requires TellsFinds(g, f)
    ensures Rounds(g, k, n) == RoundsOf(f, k, n)
    decreases n
  {
    if n <= 0 || FirstReaching(g, Level(g, k + 1)).Some? {
      RoundsAgreeHere(g, f, k, n);
    } else {
      RoundsAreRoundsOf(g, f, k + 1, n - 1);
      RoundsAgreeNext(g, f, k, n);
    }
  }

  /**
   * The search returns the first chain, in the order the search builds
   * them, of the first round that has one reaching the goal, looking at
   * rounds 1 to max(1, limit); [] when none of them has one.
   */
  lemma SearchIsFirstOfShortestLevel<T>(g: Graph<T>, limit: int)
    ensures FirstOf(Finds(g), Search(g, limit), 1, MaxLength(limit))
  {
    var found := FirstReaching(g, Level(g, 1));
    if found.Some? {
      FoundLength(g, 1);
    } else {
      FindsTells(g);
      RoundsAreRoundsOf(g, Finds(g), 1, limit - 1);
      FindsLength(g);
      if limit > 1 {
        RoundsOfFirst(Finds(g), 1, limit - 1);
      }
    }
  }

  // ---------------------------------------------------------------------
  // Properties of the chain found

  /** A chain that repeats a node can be cut down to one that does not. */
  lemma {:induction false} Shortcut<T>(g: Graph<T>, ch: seq<T>)
    requires Valid(g, ch)
    ensures exists s: seq<T> :: Valid(g, s) && Simple(s) && |s| <= |ch|
    decreases |ch|
  {
    if !Simple(ch) {
      var i, j :| 0 <= i < j < |ch| && ch[i] == ch[j];
      var s := ch[..i] + ch[j..];
      assert |s| == |ch| - (j - i);
      assert s[0] == ch[0] by {
        if i == 0 { assert s[0] == ch[j]; }
      }
      forall t | 0 <= t < |s| - 1 ensures s[t + 1] in g.next(s[t]) {
        if t + 1 < i {
          assert s[t] == ch[t] && s[t + 1] == ch[t + 1];
        } else if t + 1 == i {
          assert s[t] == ch[i - 1] && s[t + 1] == ch[j];
        } else {
          assert s[t] == ch[j + t - i] && s[t + 1] == ch[j + t - i + 1];
        }
      }
      assert s[|s| - 1] == ch[|ch| - 1];
      assert Valid(g, s);
      Shortcut(g, s);
    }
  }

  /** A non-empty result is a valid simple chain of at most max(1, limit) nodes. */
  lemma SearchSound<T>(g: Graph<T>, limit: int)
    ensures var r := Search(g, limit);
      r != [] ==> Valid(g, r) && Simple(r) && 1 <= |r| <= MaxLength(limit)
  {
    SearchIsFirstOfShortestLevel(g, limit);
    var r := Search(g, limit);
    if r != [] {
      FirstReachingSpec(g, Level(g, |r|));
      LevelMember(g, |r|, r);
    }
  }

  /** Below the round of the chain found, no round finds one. */
  lemma SearchFoundNoneBelow<T>(g: Graph<T>, limit: int, j: nat)
    requires Search(g, limit) != [] && 1 <= j < |Search(g, limit)|
    ensures FirstReaching(g, Level(g, j)).None?
  {
    SearchIsFirstOfShortestLevel(g, limit);
    NoneAt(Finds(g), |Search(g, limit)|, j);
    FindsAt(g, j);
  }

  /** When nothing is found, no round up to max(1, limit) finds a chain. */
  lemma SearchEmptyNoneBelow<T>(g: Graph<T>, limit: int, j: nat)
    requires Search(g, limit) == [] && 1 <= j <= MaxLength(limit)
    ensures FirstReaching(g, Level(g, j)).None?
  {
    SearchIsFirstOfShortestLevel(g, limit);
    NoneAt(Finds(g), MaxLength(limit) + 1, j);
    FindsAt(g, j);
  }

  /** No valid chain, with or without repeats, is shorter than the one found. */
  lemma SearchMinimal<T>(g: Graph<T>, limit: int, ch: seq<T>)
    requires Valid(g, ch)
    ensures var r := Search(g, limit);
      r != [] ==> |r| <= |ch|
  {
    var r := Search(g, limit);
    if r != [] && |ch| < |r| {
      Shortcut(g, ch);
      var s :| Valid(g, s) && Simple(s) && |s| <= |ch|;
      LevelMember(g, |s|, s);
      FirstReachingSpec(g, Level(g, |s|));
      SearchFoundNoneBelow(g, limit, |s|);
      assert false;
    }
  }

  /** An empty result means no valid chain of at most max(1, limit) nodes exists. */
  lemma SearchComplete<T>(g: Graph<T>, limit: int, ch: seq<T>)
    requires Valid(g, ch) && |ch| <= MaxLength(limit)
    ensures Search(g, limit) != []
  {
    if Search(g, limit) == [] {
      Shortcut(g, ch);
      var s :| Valid(g, s) && Simple(s) && |s| <= |ch|;
      LevelMember(g, |s|, s);
      FirstReachingSpec(g, Level(g, |s|));
      SearchEmptyNoneBelow(g, limit, |s|);
      assert false;
    }
  }

  /** When start node j is the first to pass the goal test, the search returns it alone. */
  lemma SearchDirect<T>(g: Graph<T>, limit: int, j: nat)
    requires j < |g.first| && g.goal(g.first[j])
    requires forall i :: 0 <= i < j ==> !g.goal(g.first[i])
    ensures Search(g, limit) == [g.first[j]]
  {
    var before := Singletons(g.first[..j]);
    forall i | 0 <= i < |before|
      ensures !Reaches(g, before[i])
    {
      assert before[i] == [g.first[i]];
    }
    FirstReachingSpec(g, before);
    FoundInFirstRound(g, j);
  }

  // ---------------------------------------------------------------------
  // The search built step by step, as find_conversion_chain's loops build it

  lemma {:induction false} FirstReachingAppend<T>(g: Graph<T>, a: seq<seq<T>>, b: seq<seq<T>>)
    ensures FirstReaching(g, a + b)
      == if FirstReaching(g, a).Some? then FirstReaching(g, a) else FirstReaching(g, b)
  {
    if a == [] {
      assert a + b == b;
    } else {
      assert (a + b)[0] == a[0];
      assert (a + b)[1..] == a[1..] + b;
      FirstReachingAppend(g, a[1..], b);
    }
  }

  lemma {:induction false} ExtendWithAppend<T>(chain: seq<T>, a: seq<T>, b: seq<T>)
    ensures ExtendWith(chain, a + b) == ExtendWith(chain, a) + ExtendWith(chain, b)
    decreases |b|
  {
    if b == [] {
      assert a + b == a;
    } else {
      assert (a + b)[..|a + b| - 1] == a + b[..|b| - 1];
      assert (a + b)[|a + b| - 1] == b[|b| - 1];
      ExtendWithAppend(chain, a, b[..|b| - 1]);
    }
  }

  lemma ExtendAppendStep<T>(g: Graph<T>, a: seq<seq<T>>, b: seq<seq<T>>)
    requires b != [] && Extend(g, a + b[..|b| - 1]) == Extend(g, a) + Extend(g, b[..|b| - 1])
    ensures Extend(g, a + b) == Extend(g, a) + Extend(g, b)
  {
    var last := Successors(g, b[|b| - 1]);
    Seqs.DropLastAppend(a, b);
    ExtendSnoc(g, a + b);
    ExtendSnoc(g, b);
    Seqs.AppendAssoc(Extend(g, a), Extend(g, b[..|b| - 1]), last);
  }

  lemma ExtendSnoc<T>(g: Graph<T>, chains: seq<seq<T>>)
    requires chains != []
    ensures Extend(g, chains) == Extend(g, chains[..|chains| - 1]) + Successors(g, chains[|chains| - 1])
  {
  }


  lemma {:induction false} ExtendAppend<T>(g: Graph<T>, a: seq<seq<T>>, b: seq<seq<T>>)
    ensures Extend(g, a + b) == Extend(g, a) + Extend(g, b)
    decreases |b|
  {
    if b == [] {
      assert a + b == a;
    } else {
      ExtendAppend(g, a, b[..|b| - 1]);
      ExtendAppendStep(g, a, b);
    }
  }

  lemma SingletonsStep<T>(cs: seq<T>, j: nat)
    requires j < |cs|
    ensures Singletons(cs[..j + 1]) == Singletons(cs[..j]) + [[cs[j]]]
  {
    assert Singletons(cs[..j + 1])[j] == [cs[j]];
  }

  lemma ExtendWithStep<T>(chain: seq<T>, cs: seq<T>, u: nat)
    requires u < |cs|
    ensures ExtendWith(chain, cs[..u + 1])
      == ExtendWith(chain, cs[..u]) + (if cs[u] !in chain then [chain + [cs[u]]] else [])
  {
    assert cs[..u + 1][..u] == cs[..u];
  }

  lemma ExtendStep<T>(g: Graph<T>, chains: seq<seq<T>>, t: nat)
    requires t < |chains|
    ensures Extend(g, chains[..t + 1]) == Extend(g, chains[..t]) + Successors(g, chains[t])
  {
    assert chains[..t + 1][..t] == chains[..t];
  }

  lemma SingletonsAppend<T>(a: seq<T>, b: seq<T>)
    ensures Singletons(a + b) == Singletons(a) + Singletons(b)
  {
    var l, r := Singletons(a + b), Singletons(a) + Singletons(b);
    assert |l| == |r|;
    forall i | 0 <= i < |l| ensures l[i] == r[i] {
      if i < |a| {
        assert (a + b)[i] == a[i];
      } else {
        assert (a + b)[i] == b[i - |a|];
      }
    }
  }

  /** The first round stops at the first start node that passes the goal test. */
  lemma FoundInFirstRound<T>(g: Graph<T>, j: nat)
    requires j < |g.first| && g.goal(g.first[j])
    requires FirstReaching(g, Singletons(g.first[..j])).None?
    ensures FirstReaching(g, Level(g, 1)) == Some([g.first[j]])
  {
    var cs := g.first;
    assert cs == cs[..j] + ([cs[j]] + cs[j + 1..]);
    SingletonsAppend(cs[..j], [cs[j]] + cs[j + 1..]);
    SingletonsAppend([cs[j]], cs[j + 1..]);
    var rest := [[cs[j]]] + Singletons(cs[j + 1..]);
    assert Singletons([cs[j]]) == [[cs[j]]];
    assert rest[0] == [cs[j]];
    FirstReachingAppend(g, Singletons(cs[..j]), rest);
  }

  lemma ExtendAround<T>(g: Graph<T>, chains: seq<seq<T>>, t: nat)
    requires t < |chains|
    ensures Extend(g, chains) == Extend(g, chains[..t]) + Successors(g, chains[t]) + Extend(g, chains[t + 1..])
  {
    assert chains == chains[..t] + [chains[t]] + chains[t + 1..];
    ExtendAppend(g, chains[..t] + [chains[t]], chains[t + 1..]);
    ExtendAppend(g, chains[..t], [chains[t]]);
    assert [chains[t]][..0] == [];
  }

  lemma ExtendWithAround<T>(chain: seq<T>, cs: seq<T>, u: nat)
    requires u < |cs| && cs[u] !in chain
    ensures ExtendWith(chain, cs) == ExtendWith(chain, cs[..u]) + [chain + [cs[u]]] + ExtendWith(chain, cs[u + 1..])
  {
    assert cs == cs[..u] + [cs[u]] + cs[u + 1..];
    ExtendWithAppend(chain, cs[..u] + [cs[u]], cs[u + 1..]);
    ExtendWithAppend(chain, cs[..u], [cs[u]]);
    assert [cs[u]][..0] == [];
  }

  /**
   * A later round stops at the first chain it builds that reaches the
   * goal: the one extending chains[t] by the u-th successor of its last
   * node, when no chain built before it reaches the goal.
   */
  lemma FoundInRound<T>(g: Graph<T>, chains: seq<seq<T>>, t: nat, u: nat)
    requires t < |chains| && chains[t] != []
    requires u < |g.next(chains[t][|chains[t]| - 1])|
    requires g.next(chains[t][|chains[t]| - 1])[u] !in chains[t]
    requires g.goal(g.next(chains[t][|chains[t]| - 1])[u])
    requires FirstReaching(g, Extend(g, chains[..t])
                              + ExtendWith(chains[t], g.next(chains[t][|chains[t]| - 1])[..u])).None?
    ensures FirstReaching(g, Extend(g, chains))
      == Some(chains[t] + [g.next(chains[t][|chains[t]| - 1])[u]])
  {
    var chain := chains[t];
    var next := g.next(chain[|chain| - 1]);
    var nc := chain + [next[u]];
    ExtendAround(g, chains, t);
    ExtendWithAround(chain, next, u);
    FirstReachingAt(g, Extend(g, chains[..t]), ExtendWith(chain, next[..u]), nc,
                    ExtendWith(chain, next[u + 1..]), Extend(g, chains[t + 1..]));
  }

  lemma FirstReachingAt<T>(g: Graph<T>, a: seq<seq<T>>, b: seq<seq<T>>, x: seq<T>, c: seq<seq<T>>, d: seq<seq<T>>)
    requires FirstReaching(g, a + b).None? && Reaches(g, x)
    ensures FirstReaching(g, a + (b + [x] + c) + d) == Some(x)
  {
    assert a + (b + [x] + c) + d == (a + b) + ([x] + (c + d));
    assert ([x] + (c + d))[0] == x;
    FirstReachingAppend(g, a + b, [x] + (c + d));
  }

  // ---------------------------------------------------------------------
  // One step of each loop of find_conversion_chain

  /** The successors of the last node of chains[t] ([] for an empty chain). */
  function NextOf<T>(g: Graph<T>, chains: seq<seq<T>>, t: nat): seq<T>
    requires t < |chains|
  {
    if chains[t] == [] then [] else g.next(chains[t][|chains[t]| - 1])
  }

  /** The state of the first loop after j start nodes: their chains, none reaching the goal. */
  ghost predicate Starting<T>(g: Graph<T>, j: nat, built: seq<seq<T>>) {
    j <= |g.first| && built == Singletons(g.first[..j]) && FirstReaching(g, built).None?
  }

  lemma StartingStep<T>(g: Graph<T>, j: nat, built: seq<seq<T>>)
    requires Starting(g, j, built) && j < |g.first|
    ensures g.goal(g.first[j]) ==> FirstReaching(g, Level(g, 1)) == Some([g.first[j]])
    ensures !g.goal(g.first[j]) ==> Starting(g, j + 1, built + [[g.first[j]]])
  {
    if g.goal(g.first[j]) {
      FoundInFirstRound(g, j);
    } else {
      SingletonsStep(g.first, j);
      FirstReachingAppend(g, built, [[g.first[j]]]);
    }
  }

  lemma StartingDone<T>(g: Graph<T>, built: seq<seq<T>>)
    requires Starting(g, |g.first|, built)
    ensures built == Level(g, 1) && FirstReaching(g, Level(g, 1)).None?
  {
    assert g.first[..|g.first|] == g.first;
  }

  /**
   * The state of the inner loops in a round: the chains built from
   * chains[..t], then those built from chains[t] with the first u
   * successors of its last node, none reaching the goal.
   */
  ghost predicate Building<T>(g: Graph<T>, chains: seq<seq<T>>, t: nat, u: nat, built: seq<seq<T>>) {
    t < |chains| && chains[t] != [] && u <= |NextOf(g, chains, t)|
    && built == Extend(g, chains[..t]) + ExtendWith(chains[t], NextOf(g, chains, t)[..u])
    && FirstReaching(g, built).None?
  }

  lemma BuildingStart<T>(g: Graph<T>, chains: seq<seq<T>>, t: nat, built: seq<seq<T>>)
    requires t < |chains| && chains[t] != []
    requires built == Extend(g, chains[..t]) && FirstReaching(g, built).None?
    ensures Building(g, chains, t, 0, built)
  {
    assert NextOf(g, chains, t)[..0] == [];
  }

  lemma BuildingStep<T>(g: Graph<T>, chains: seq<seq<T>>, t: nat, u: nat, built: seq<seq<T>>)
    requires Building(g, chains, t, u, built) && u < |NextOf(g, chains, t)|
    ensures var c := NextOf(g, chains, t)[u];
      && (c !in chains[t] && g.goal(c) ==> FirstReaching(g, Extend(g, chains)) == Some(chains[t] + [c]))
      && (c !in chains[t] && !g.goal(c) ==> Building(g, chains, t, u + 1, built + [chains[t] + [c]]))
      && (c in chains[t] ==> Building(g, chains, t, u + 1, built))
  {
    var c := NextOf(g, chains, t)[u];
    ExtendWithStep(chains[t], NextOf(g, chains, t), u);
    if c !in chains[t] {
      if g.goal(c) {
        FoundInRound(g, chains, t, u);
      } else {
        FirstReachingAppend(g, built, [chains[t] + [c]]);
      }
    }
  }

  lemma BuildingDone<T>(g: Graph<T>, chains: seq<seq<T>>, t: nat, built: seq<seq<T>>)
    requires t < |chains| && Building(g, chains, t, |NextOf(g, chains, t)|, built)
    ensures built == Extend(g, chains[..t + 1]) && FirstReaching(g, built).None?
  {
    assert NextOf(g, chains, t)[..|NextOf(g, chains, t)|] == NextOf(g, chains, t);
    ExtendStep(g, chains, t);
  }

  lemma RoundDone<T>(g: Graph<T>, k: nat, built: seq<seq<T>>)
    requires k >= 1 && built == Extend(g, Level(g, k)[..|Level(g, k)|]) && FirstReaching(g, built).None?
    ensures built == Level(g, k + 1) && FirstReaching(g, Level(g, k + 1)).None?
  {
    assert Level(g, k)[..|Level(g, k)|] == Level(g, k);
  }

  /** Every chain of round k is non-empty. */
  lemma LevelNonEmpty<T>(g: Graph<T>, k: nat, t: nat)
    requires k >= 1 && t < |Level(g, k)|
    ensures Level(g, k)[t] != []
  {
    LevelMember(g, k, Level(g, k)[t]);
  }

  lemma SearchAfterFirstRound<T>(g: Graph<T>, limit: int)
    requires FirstReaching(g, Level(g, 1)).None?
    ensures Search(g, limit) == Rounds(g, 1, limit - 1)
  {
  }

  lemma RoundsStep<T>(g: Graph<T>, k: nat, n: int)
    ensures n <= 0 ==> Rounds(g, k, n) == []
    ensures n > 0 && FirstReaching(g, Level(g, k + 1)).Some? ==>
      Rounds(g, k, n) == FirstReaching(g, Level(g, k + 1)).value
    ensures n > 0 && FirstReaching(g, Level(g, k + 1)).None? ==> Rounds(g, k, n) == Rounds(g, k + 1, n - 1)
  {
  }
}
