/** Who follows whom: each has at most one master, every master lists its followers, and no chain
    of masters comes back to where it began. */
module Follow {
  import opened ObjectGraph
  import opened Options
  import Affects

  const AFFECT_GROUP: nat := 8
  const AFFECT_CHARM: nat := 21
  const SPELL_CHARM: Affects.Spell := 7

  class Person {
    var master: Person?
    var followers: seq<Person>
    const record: Affects.PlayerRecord?

    constructor (record: Affects.PlayerRecord?)
      ensures master == null && followers == [] && this.record == record
    {
      master, followers, this.record := null, [], record;
    }
  }

  // ----- the links as a value ---------------------------------------------

  datatype Ties = Ties(master: map<Person, Option<Person>>, followers: map<Person, seq<Person>>)

  function MasterOf(t: Ties, p: Person): Option<Person> {
    if p in t.master then t.master[p] else None
  }

  function FollowersOf(t: Ties, p: Person): seq<Person> {
    if p in t.followers then t.followers[p] else []
  }

  /** The n-th above p: its master's master's ... */
  function Above(t: Ties, p: Option<Person>, n: nat): Option<Person>
    decreases n
  {
    if n == 0 || p == None then p else Above(t, MasterOf(t, p.value), n - 1)
  }

  /** Walking up from p comes to an end. */
  ghost predicate Ends(t: Ties, p: Option<Person>) {
    exists n: nat :: Above(t, p, n) == None
  }

  /** c is leader or somewhere above it. */
  ghost predicate IsAbove(t: Ties, leader: Person, c: Person) {
    exists n: nat :: Above(t, Some(leader), n) == Some(c)
  }

  /** Everybody who is a master is somebody there is. */
  ghost predicate SelfContained(t: Ties) {
    && t.followers.Keys == t.master.Keys
    && forall p | p in t.master && t.master[p].Some? :: t.master[p].value in t.master
  }

  /** f is listed by m, once, exactly when m is its master. */
  ghost predicate ListsAgree(t: Ties) {
    && (forall m, f | m in t.followers && f in t.followers[m] :: f in t.master && t.master[f] == Some(m))
    && (forall f | f in t.master && t.master[f].Some? :: f in FollowersOf(t, t.master[f].value))
    && forall m | m in t.followers :: NoDup(t.followers[m])
  }

  ghost predicate ChainsEnd(t: Ties) {
    forall p | p in t.master :: Ends(t, Some(p))
  }

  ghost predicate Forest(t: Ties) {
    SelfContained(t) && ListsAgree(t) && ChainsEnd(t)
  }

  function Except(s: seq<Person>, c: Person): seq<Person> {
    if s == [] then []
    else
      var front, p := s[..|s| - 1], s[|s| - 1];
      if p == c then Except(front, c) else Except(front, c) + [p]
  }

  /** AddFollower. */
  function Add(t: Ties, c: Person, leader: Person): Ties {
    if MasterOf(t, c).Some? then t
    else t.(master := t.master[c := Some(leader)], followers := t.followers[leader := [c] + FollowersOf(t, leader)])
  }

  /** StopFollowing, as far as the links go. */
  function Stop(t: Ties, c: Person): Ties {
    match MasterOf(t, c)
    case None => t
    case Some(m) => t.(master := t.master[c := None], followers := t.followers[m := Except(FollowersOf(t, m), c)])
  }

  function StopAll(t: Ties, list: seq<Person>): Ties {
    if list == [] then t else Stop(StopAll(t, list[..|list| - 1]), list[|list| - 1])
  }

  /** DieFollower. */
  function Die(t: Ties, c: Person): Ties {
    StopAll(Stop(t, c), FollowersOf(Stop(t, c), c))
  }

  // ----- chains of masters ------------------------------------------------

  lemma {:induction false} AboveOn(t: Ties, p: Option<Person>, m: nat, n: nat)
    ensures Above(t, p, m + n) == Above(t, Above(t, p, m), n)
    decreases m
  {
    if m > 0 && p != None {
      AboveOn(t, MasterOf(t, p.value), m - 1, n);
    }
  }

  lemma FromItself(t: Ties, p: Person)
    ensures Above(t, Some(p), 0) == Some(p)
  {
  }

  lemma AboveNext(t: Ties, p: Option<Person>, n: nat)
    ensures Above(t, p, n + 1) == match Above(t, p, n) case None => None case Some(q) => MasterOf(t, q)
  {
    AboveOn(t, p, n, 1);
  }

  lemma NoneAfter(t: Ties, p: Option<Person>, n: nat)
    requires Above(t, p, n) == None
    ensures forall i: nat | i >= n :: Above(t, p, i) == None
  {
    forall i: nat | i >= n ensures Above(t, p, i) == None {
      AboveOn(t, p, n, i - n);
    }
  }

  /** A chain that never meets c is the same whatever c's master is. */
  lemma {:induction false} AboveApart(t: Ties, u: Ties, c: Person, p: Option<Person>, n: nat)
    requires forall q :: q != c ==> MasterOf(u, q) == MasterOf(t, q)
    requires forall i: nat | i < n :: Above(t, p, i) != Some(c)
    ensures Above(u, p, n) == Above(t, p, n)
    decreases n
  {
    if n > 0 && p != None {
      assert Above(t, p, 0) == p;
      forall i: nat | i < n - 1 ensures Above(t, MasterOf(t, p.value), i) != Some(c) {
        assert Above(t, p, i + 1) != Some(c);
      }
      AboveApart(t, u, c, MasterOf(t, p.value), n - 1);
    }
  }

  /** The first place c is met on the way up from p, if it is before n. */
  lemma FirstMet(t: Ties, c: Person, p: Option<Person>, n: nat) returns (k: nat)
    ensures k <= n && forall i: nat | i < k :: Above(t, p, i) != Some(c)
    ensures k < n ==> Above(t, p, k) == Some(c)
  {
    k := 0;
    while k < n && Above(t, p, k) != Some(c)
      invariant k <= n && forall i: nat | i < k :: Above(t, p, i) != Some(c)
    {
      k := k + 1;
    }
  }

  /** Once c's own chain ends, so does every other that ended when only c's master was different. */
  lemma EndsStill(t: Ties, u: Ties, c: Person, p: Option<Person>)
    requires forall q :: q != c ==> MasterOf(u, q) == MasterOf(t, q)
    requires Ends(t, p) && Ends(u, Some(c))
    ensures Ends(u, p)
  {
    var n: nat :| Above(t, p, n) == None;
    var k := FirstMet(t, c, p, n);
    AboveApart(t, u, c, p, k);
    if k < n {
      var m: nat :| Above(u, Some(c), m) == None;
      AboveOn(u, p, k, m);
      assert Above(u, p, k + m) == None;
    }
  }

  /** c's chain, once it follows leader, ends just when leader's did not go through c. */
  lemma FollowingEnds(t: Ties, u: Ties, c: Person, leader: Person)
    requires MasterOf(u, c) == Some(leader) && forall q :: q != c ==> MasterOf(u, q) == MasterOf(t, q)
    requires Ends(t, Some(leader))
    ensures Ends(u, Some(c)) <==> !IsAbove(t, leader, c)
  {
    if IsAbove(t, leader, c) {
      LoopNeverEnds(t, u, c, leader);
    } else {
      var n: nat :| Above(t, Some(leader), n) == None;
      AboveApart(t, u, c, Some(leader), n);
      assert Above(u, Some(c), n + 1) == None;
    }
  }

  lemma LoopNeverEnds(t: Ties, u: Ties, c: Person, leader: Person)
    requires MasterOf(u, c) == Some(leader) && forall q :: q != c ==> MasterOf(u, q) == MasterOf(t, q)
    requires IsAbove(t, leader, c)
    ensures !Ends(u, Some(c))
  {
    var n: nat :| Above(t, Some(leader), n) == Some(c);
    var k := FirstMet(t, c, Some(leader), n);
    AboveApart(t, u, c, Some(leader), k);
    assert Above(u, Some(c), k + 1) == Some(c);
    forall i: nat ensures Above(u, Some(c), i) != None {
      Rounds(u, c, k + 1, i);
    }
  }

  /** Going round a loop, nothing on it is the end. */
  lemma {:induction false} Rounds(u: Ties, c: Person, k: nat, i: nat)
    requires k > 0 && Above(u, Some(c), k) == Some(c)
    ensures Above(u, Some(c), i) != None
    decreases i
  {
    if i >= k {
      AboveOn(u, Some(c), k, i - k);
      Rounds(u, c, k, i - k);
    } else {
      AboveOn(u, Some(c), i, k - i);
    }
  }

  // ----- what each operation keeps ----------------------------------------

  lemma {:induction false} ExceptIs(s: seq<Person>, c: Person)
    ensures forall p :: p in Except(s, c) <==> p in s && p != c
    ensures NoDup(s) ==> NoDup(Except(s, c))
  {
    if s != [] {
      var front := s[..|s| - 1];
      assert s == front + [s[|s| - 1]];
      ExceptIs(front, c);
      assert NoDup(s) ==> s[|s| - 1] !in front;
    }
  }

  /** Following somebody keeps everything in order exactly when it closes no circle. */
  lemma AddKeepsForest(t: Ties, c: Person, leader: Person)
    requires Forest(t) && c in t.master && leader in t.master && t.master[c] == None
    ensures Forest(Add(t, c, leader)) <==> !IsAbove(t, leader, c)
  {
    var u := Add(t, c, leader);
    FollowingEnds(t, u, c, leader);
    if !IsAbove(t, leader, c) {
      forall p | p in u.master ensures Ends(u, Some(p)) {
        EndsStill(t, u, c, Some(p));
      }
      AddLists(t, c, leader);
    }
  }

  /** With one more who follows nobody. */
  function Joined(t: Ties, p: Person): Ties {
    Ties(t.master[p := None], t.followers[p := []])
  }

  lemma {:induction false} AboveStays(t: Ties, p: Person, q: Option<Person>, n: nat)
    requires SelfContained(t) && p !in t.master && (q.Some? ==> q.value in t.master)
    ensures Above(Joined(t, p), q, n) == Above(t, q, n)
    decreases n
  {
    if n > 0 && q.Some? {
      AboveStays(t, p, MasterOf(t, q.value), n - 1);
    }
  }

  lemma JoinedKeepsForest(t: Ties, p: Person)
    requires Forest(t) && p !in t.master
    ensures Forest(Joined(t, p))
  {
    var u := Joined(t, p);
    forall q | q in u.master ensures Ends(u, Some(q)) {
      if q == p {
        assert Above(u, Some(p), 1) == None;
      } else {
        var n: nat :| Above(t, Some(q), n) == None;
        AboveStays(t, p, Some(q), n);
      }
    }
    JoinedLists(t, p);
  }

  lemma JoinedLists(t: Ties, p: Person)
    requires SelfContained(t) && ListsAgree(t) && p !in t.master
    ensures SelfContained(Joined(t, p)) && ListsAgree(Joined(t, p))
  {
  }

  lemma AddLists(t: Ties, c: Person, leader: Person)
    requires SelfContained(t) && ListsAgree(t) && c in t.master && leader in t.master && t.master[c] == None
    ensures SelfContained(Add(t, c, leader)) && ListsAgree(Add(t, c, leader))
  {
    assert c !in t.followers[leader];
  }

  lemma StopLists(t: Ties, c: Person)
    requires SelfContained(t) && ListsAgree(t)
    ensures SelfContained(Stop(t, c)) && ListsAgree(Stop(t, c))
  {
    if MasterOf(t, c).Some? {
      var m, u := t.master[c].value, Stop(t, c);
      StopMaps(t, c);
      hide Stop;
      ExceptIs(t.followers[m], c);
      forall f | f in u.master && u.master[f].Some? ensures f in FollowersOf(u, u.master[f].value) {
        assert f in FollowersOf(t, t.master[f].value);
      }
      forall k, f | k in u.followers && f in u.followers[k] ensures f in u.master && u.master[f] == Some(k) {
        StillListed(t, c, k, f);
      }
    }
  }

  lemma StillListed(t: Ties, c: Person, k: Person, f: Person)
    requires SelfContained(t) && ListsAgree(t) && k in Stop(t, c).followers && f in Stop(t, c).followers[k]
    ensures f in Stop(t, c).master && Stop(t, c).master[f] == Some(k)
  {
    hide Stop, Except, FollowersOf, ListsAgree, NoDup;
    StopMaps(t, c);
    ExceptIs(t.followers[k], c);
    ListsItsOwn(t, k, f);
  }

  lemma ListsItsOwn(t: Ties, m: Person, f: Person)
    requires ListsAgree(t) && m in t.followers && f in t.followers[m]
    ensures f in t.master && t.master[f] == Some(m)
  {
  }

  /** What stopping does to the two maps. */
  lemma StopMaps(t: Ties, c: Person)
    requires SelfContained(t)
    ensures Stop(t, c).master.Keys == t.master.Keys == Stop(t, c).followers.Keys == t.followers.Keys
    ensures forall p | p in t.master :: Stop(t, c).master[p] == if p == c then None else t.master[p]
    ensures forall m | m in t.followers ::
              Stop(t, c).followers[m] == if MasterOf(t, c) == Some(m) then Except(t.followers[m], c) else t.followers[m]
  {
  }

  lemma StopKeepsForest(t: Ties, c: Person)
    requires Forest(t)
    ensures Forest(Stop(t, c))
  {
    var u := Stop(t, c);
    StopLists(t, c);
    if MasterOf(t, c).Some? {
      assert Above(u, Some(c), 1) == None;
      forall p | p in u.master ensures Ends(u, Some(p)) {
        EndsStill(t, u, c, Some(p));
      }
    }
  }

  /** What stopping everybody in a list does to the links. */
  lemma {:induction false} StopAllIs(t: Ties, list: seq<Person>)
    requires Forest(t)
    ensures Forest(StopAll(t, list)) && StopAll(t, list).master.Keys == t.master.Keys
    ensures forall p | p in t.master :: StopAll(t, list).master[p] == if p in list then None else t.master[p]
  {
    hide Forest;
    if list != [] {
      var front, c := list[..|list| - 1], list[|list| - 1];
      StopAllIs(t, front);
      assert list == front + [c];
      StopKeepsForest(StopAll(t, front), c);
      StopIs(StopAll(t, front), c);
    }
  }

  lemma StopIs(t: Ties, c: Person)
    requires Forest(t)
    ensures Stop(t, c).master.Keys == t.master.Keys == Stop(t, c).followers.Keys == t.followers.Keys
    ensures forall p | p in t.master :: Stop(t, c).master[p] == if p == c then None else t.master[p]
    ensures forall m | m in t.followers ::
              Stop(t, c).followers[m] == if MasterOf(t, c) == Some(m) then Except(t.followers[m], c) else t.followers[m]
  {
    StopMaps(t, c);
  }

  /** A list of followers is decided by the links but for its order. */
  lemma {:induction false} StopAllElsewhere(t: Ties, list: seq<Person>, m: Person)
    requires Forest(t) && m in t.master && forall p | p in list && p in t.master :: t.master[p] != Some(m)
    ensures StopAll(t, list).followers.Keys == t.followers.Keys && StopAll(t, list).followers[m] == t.followers[m]
  {
    hide Forest, Stop;
    KeysAgree(t);
    if list != [] {
      var front, c := list[..|list| - 1], list[|list| - 1];
      assert list == front + [c];
      StopAllElsewhere(t, front, m);
      StopAllIs(t, front);
      StopIs(StopAll(t, front), c);
    }
  }

  lemma KeysAgree(t: Ties)
    requires Forest(t)
    ensures t.followers.Keys == t.master.Keys
  {
  }

  /** Nobody is their own master. */
  lemma NotOwnMaster(t: Ties, c: Person)
    requires ChainsEnd(t) && c in t.master
    ensures t.master[c] != Some(c)
  {
    if t.master[c] == Some(c) {
      var n: nat :| Above(t, Some(c), n) == None;
      Rounds(t, c, 1, n);
      assert false;
    }
  }

  /** When c leaves, no link to or from c is left, and every other link and list is as it was. */
  lemma DieEffect(t: Ties, c: Person)
    requires Forest(t) && c in t.master
    ensures var u := Die(t, c);
      && Forest(u) && u.master.Keys == t.master.Keys
      && u.master[c] == None && u.followers[c] == []
      && (forall p | p in t.master && p != c :: u.master[p] == if t.master[p] == Some(c) then None else t.master[p])
      && (forall m | m in t.master && m != c ::
            u.followers[m] == if t.master[c] == Some(m) then Except(t.followers[m], c) else t.followers[m])
    ensures FollowersOf(Stop(t, c), c) == t.followers[c]
  {
    var v, u := Stop(t, c), Die(t, c);
    NotOwnMaster(t, c);
    StopKeepsForest(t, c);
    StopIs(t, c);
    FollowersAre(v, c);
    hide Forest, Stop, ChainsEnd;
    StopAllIs(v, v.followers[c]);
    KeysAgree(u);
    forall m | m in t.master && m != c ensures u.followers[m] == v.followers[m] {
      StopAllElsewhere(v, v.followers[c], m);
    }
    Deserted(u, c);
  }

  lemma FollowersAre(t: Ties, c: Person)
    requires Forest(t) && c in t.followers
    ensures forall p | p in t.master :: p in t.followers[c] <==> t.master[p] == Some(c)
    ensures forall p | p in t.followers[c] :: p in t.master
  {
  }

  lemma HeadIn<T>(s: seq<T>)
    ensures s != [] ==> s[0] in s
  {
  }

  lemma Deserted(u: Ties, c: Person)
    requires Forest(u) && c in u.master && forall p | p in u.master :: u.master[p] != Some(c)
    ensures u.followers[c] == []
  {
    FollowersAre(u, c);
    HeadIn(u.followers[c]);
  }

  // ----- runs -------------------------------------------------------------

  /** Joining, as those who add followers do it: asking first. */
  datatype Op = Joins(c: Person, leader: Person) | Stops(c: Person) | Leaves(c: Person)

  ghost function Do(t: Ties, op: Op): Ties {
    match op
    case Joins(c, leader) => if IsAbove(t, leader, c) then t else Add(t, c, leader)
    case Stops(c) => Stop(t, c)
    case Leaves(c) => Die(t, c)
  }

  ghost function Run(t: Ties, ops: seq<Op>): Ties {
    if ops == [] then t else Do(Run(t, ops[..|ops| - 1]), ops[|ops| - 1])
  }

  ghost predicate Among(op: Op, people: set<Person>) {
    op.c in people && (op.Joins? ==> op.leader in people)
  }

  /** Over every run, following stays a forest that both ends agree on. */
  lemma {:induction false} RunKeepsForest(t: Ties, ops: seq<Op>)
    requires Forest(t) && forall op | op in ops :: Among(op, t.master.Keys)
    ensures Forest(Run(t, ops)) && Run(t, ops).master.Keys == t.master.Keys
  {
    if ops != [] {
      var front, op := ops[..|ops| - 1], ops[|ops| - 1];
      RunKeepsForest(t, front);
      var u := Run(t, front);
      assert Among(op, t.master.Keys);
      hide Forest;
      DoKeepsForest(u, op);
    }
  }

  lemma DoKeepsForest(t: Ties, op: Op)
    requires Forest(t) && Among(op, t.master.Keys)
    ensures Forest(Do(t, op)) && Do(t, op).master.Keys == t.master.Keys
  {
    match op
    case Joins(c, leader) =>
      if !IsAbove(t, leader, c) && t.master[c] == None {
        AddKeepsForest(t, c, leader);
      }
    case Stops(c) => StopKeepsForest(t, c);
    case Leaves(c) => DieEffect(t, c);
  }

  // ----- on the heap ------------------------------------------------------

  /** What StopFollowing does to the record: the charm and the group flag come off. */
  function Freed(r: Affects.Rec): Affects.Rec {
    var charmed := exists a | a in r.affects :: a.spell == SPELL_CHARM;
    var s := if charmed then Affects.Recomputed(r.(affects := Affects.Lacking(r.affects, SPELL_CHARM))) else r;
    var u := Affects.Recomputed(s.(baseAffectFlags := s.baseAffectFlags - {AFFECT_CHARM, AFFECT_GROUP}));
    u.(affectFlags := u.affectFlags - {AFFECT_CHARM, AFFECT_GROUP})
  }

  method Release(r: Affects.PlayerRecord)
    modifies r
    ensures r.View() == Freed(old(r.View()))
  {
    hide Affects.Recomputed, Affects.Lacking;
    var removed := r.RemoveAffectsOf(SPELL_CHARM);
    r.baseAffectFlags := r.baseAffectFlags - {AFFECT_CHARM, AFFECT_GROUP};
    r.RecomputeAffects();
    r.affectFlags := r.affectFlags - {AFFECT_CHARM, AFFECT_GROUP};
  }

  /** Whoever stops following is neither charmed nor in a group, whatever they wear. */
  lemma FreedIsFree(r: Affects.Rec)
    ensures AFFECT_CHARM !in Freed(r).affectFlags && AFFECT_GROUP !in Freed(r).affectFlags
    ensures forall a | a in Freed(r).affects :: a.spell != SPELL_CHARM
  {
    LackingNone(r.affects, SPELL_CHARM);
  }

  lemma {:induction false} LackingNone(affects: seq<Affects.Affect>, spell: Affects.Spell)
    ensures forall a | a in Affects.Lacking(affects, spell) :: a.spell != spell
  {
    if affects != [] {
      LackingNone(affects[..|affects| - 1], spell);
    }
  }

  function Maybe(p: Person?): Option<Person> {
    if p == null then None else Some(p)
  }

  /** Everybody there is. */
  /** Both ends of c's link undone, and its record freed when it had a master. */
  ghost predicate Stopped(t: Ties, m: map<Person, Affects.Rec>, c: Option<Person>, t': Ties, m': map<Person, Affects.Rec>) {
    match c
    case None => t' == t && m' == m
    case Some(p) => t' == Stop(t, p) && m' == FreedAll(m, if MasterOf(t, p) == None then {} else {p})
  }

  /** c's followers, as they were listed, and all links of c undone; they are freed, and so is c when
      it had a master. */
  ghost predicate Died(
    t: Ties, m: map<Person, Affects.Rec>, c: Option<Person>, t': Ties, m': map<Person, Affects.Rec>, orphaned: seq<Person>)
  {
    match c
    case None => t' == t && m' == m && orphaned == []
    case Some(p) =>
      && orphaned == FollowersOf(t, p) && t' == Die(t, p)
      && m' == FreedAll(m, (if MasterOf(t, p) == None then {} else {p}) + Elems(orphaned))
  }

  class Company {
    ghost var people: set<Person>

    ghost function View(): Ties
      reads this, people`master, people`followers
    {
      Ties(map p | p in people :: Maybe(p.master), map p | p in people :: p.followers)
    }

    /** Two people have two records. */
    ghost predicate Distinct()
      reads this
    {
      forall p, q | p in people && q in people && p.record != null && p.record == q.record :: p == q
    }

    ghost predicate Valid()
      reads this, people`master, people`followers
    {
      Forest(View()) && Distinct()
    }

    ghost function Records(): set<Affects.PlayerRecord>
      reads this
    {
      set p | p in people && p.record != null :: p.record
    }

    constructor ()
      ensures people == {} && Valid()
    {
      people := {};
    }

    /** Somebody comes who follows nobody. */
    method Admit(p: Person)
      requires Valid() && p !in people && p.master == null && p.followers == []
      requires p.record != null ==> p.record !in Records()
      modifies this
      ensures Valid() && people == old(people) + {p} && View() == Joined(old(View()), p)
    {
      hide Forest, Above;
      Sees();
      JoinedKeepsForest(View(), p);
      Widen(p);
    }

    ghost method Widen(p: Person)
      requires p !in people && p.master == null && p.followers == []
      modifies this
      ensures people == old(people) + {p} && View() == Joined(old(View()), p)
    {
      ghost var t := View();
      people := people + {p};
      assert View().master == t.master[p := None] && View().followers == t.followers[p := []];
    }

    lemma Sees()
      requires Valid()
      ensures Forest(View()) && View().master.Keys == people == View().followers.Keys
      ensures forall p | p in people :: View().followers[p] == p.followers
      ensures forall p | p in people :: MasterOf(View(), p) == Maybe(p.master)
      ensures forall p | p in people && p.master != null :: p.master in people
    {
      forall p | p in people && p.master != null ensures p.master in people {
        assert View().master[p] == Some(p.master);
      }
    }

    lemma ChainEnds(p: Person) returns (last: nat)
      requires Valid() && p in people
      ensures Above(View(), Some(p), last) == None
    {
      assert p in View().master;
      last :| Above(View(), Some(p), last) == None;
    }

    method CircleFollow(c: Person?, leader: Person?) returns (circle: bool)
      requires Valid() && (leader != null ==> leader in people)
      ensures circle <==> c != null && leader != null && IsAbove(View(), leader, c)
    {
      hide Forest, View, Valid, Above;
      if leader == null {
        return false;
      }
      Sees();
      FromItself(View(), leader);
      var above: Person? := leader;
      ghost var last := ChainEnds(leader);
      ghost var n: nat, t := 0, View();
      while above != null
        invariant above != null ==> above in people
        invariant Above(t, Some(leader), n) == Maybe(above)
        invariant c != null ==> forall i: nat | i < n :: Above(t, Some(leader), i) != Some(c)
        invariant n <= last
        decreases last - n
      {
        if above == c {
          return true;
        }
        AboveNext(t, Some(leader), n);
        above := above.master;
        n := n + 1;
      }
      NoneAfter(t, Some(leader), n);
      return false;
    }

    method SetMaster(c: Person, master: Person?)
      requires c in people
      modifies c`master
      ensures c.master == master
      ensures View() == old(View()).(master := old(View()).master[c := Maybe(master)])
    {
      c.master := master;
    }

    method SetFollowers(leader: Person, list: seq<Person>)
      requires leader in people
      modifies leader`followers
      ensures View() == old(View()).(followers := old(View()).followers[leader := list])
    {
      leader.followers := list;
    }

    /** The last two lines of AddFollower. */
    method Link(c: Person, leader: Person)
      requires Valid() && c in people && leader in people && c.master == null
      modifies c`master, leader`followers
      ensures View() == Add(old(View()), c, leader)
    {
      hide Forest, View;
      Sees();
      SetMaster(c, leader);
      SetFollowers(leader, [c] + leader.followers);
    }

    /** Both ends of c's link come undone. */
    method Unlink(c: Person)
      requires Valid() && c in people && c.master != null
      modifies c`master, c.master`followers
      ensures View() == Stop(old(View()), c)
    {
      hide Forest, View, Except;
      Sees();
      var leader := c.master;
      var kept := Filter(leader.followers, c);
      SetFollowers(leader, kept);
      SetMaster(c, null);
    }

    method AddFollower(c: Person?, leader: Person?)
      requires Valid() && (c != null ==> c in people) && (leader != null ==> leader in people)
      modifies people`master, people`followers
      ensures Valid() <==> c == null || leader == null || old(c.master) != null || !IsAbove(old(View()), leader, c)
      ensures View() == if c == null || leader == null then old(View()) else Add(old(View()), c, leader)
    {
      hide Forest, View;
      if c == null || leader == null {
        return;
      }
      Sees();
      if c.master != null {
        return;
      }
      AddKeepsForest(View(), c, leader);
      Link(c, leader);
    }

    method Filter(list: seq<Person>, c: Person) returns (kept: seq<Person>)
      ensures kept == Except(list, c)
    {
      kept := [];
      for i := 0 to |list|
        invariant kept == Except(list[..i], c)
      {
        assert list[..i + 1][..i] == list[..i];
        if list[i] != c {
          kept := kept + [list[i]];
        }
      }
      assert list[..|list|] == list;
    }

    /** Everybody's record. */
    ghost function Sheets(): map<Person, Affects.Rec>
      reads this, Records()
    {
      map p | p in people && p.record != null :: p.record.View()
    }

    method StopFollowing(c: Person?)
      requires Valid() && (c != null ==> c in people)
      modifies people`master, people`followers, Records()
      ensures Valid() && Stopped(old(View()), old(Sheets()), Maybe(c), View(), Sheets())
    {
      hide Forest, View, Freed, Sheets, FreedAll, Distinct;
      FreedNone(Sheets());
      if c == null {
        return;
      }
      Sees();
      if c.master == null {
        return;
      }
      StopKeepsForest(View(), c);
      Unlink(c);
      ReleaseRecord(c);
    }

    method ReleaseRecord(c: Person)
      requires Distinct() && c in people
      modifies Records()
      ensures Sheets() == FreedAll(old(Sheets()), {c})
    {
      hide Freed;
      if c.record != null {
        Release(c.record);
      }
    }

    /** Those who lost their master are what it returns: c's followers, as they were listed. */
    method DieFollower(c: Person?) returns (orphaned: seq<Person>)
      requires Valid() && (c != null ==> c in people)
      modifies people`master, people`followers, Records()
      ensures Valid() && Died(old(View()), old(Sheets()), Maybe(c), View(), Sheets(), orphaned)
    {
      hide Forest, View, Freed, Valid, Sheets, FreedAll, Elems, Die, Stop, StopAll;
      if c == null {
        FreedNone(Sheets());
        return [];
      }
      Sees();
      ghost var t, m := View(), Sheets();
      DieEffect(t, c);
      StopNone(t, c);
      FreedNone(m);
      if c.master != null {
        StopFollowing(c);
      }
      Sees();
      orphaned := c.followers;
      StopEach(orphaned, c, View(), m, if MasterOf(t, c) == None then {} else {c});
    }

    /** The loop of DieFollower, over its snapshot of c's followers. */
    method StopEach(list: seq<Person>, ghost c: Person, ghost v: Ties, ghost m: map<Person, Affects.Rec>, ghost freed: set<Person>)
      requires Valid() && c in people && View() == v && list == FollowersOf(v, c) && freed <= {c}
      requires Sheets() == FreedAll(m, freed)
      modifies people`master, people`followers, Records()
      ensures Valid() && View() == StopAll(v, list) && Sheets() == FreedAll(m, freed + Elems(list))
    {
      hide Forest, View, Freed, Valid, Sheets, FreedAll, Except;
      Sees();
      StopNobody(v, list, freed);
      for i := 0 to |list|
        invariant Valid() && View() == StopAll(v, list[..i])
        invariant Sheets() == FreedAll(m, freed + Elems(list[..i]))
      {
        Sees();
        StopNext(v, c, i);
        FreedMore(m, freed + Elems(list[..i]), list[i]);
        OneMoreOf(list, i, freed);
        StopFollowing(list[i]);
      }
      assert list[..|list|] == list;
    }
  }

  lemma StopNone(t: Ties, c: Person)
    ensures MasterOf(t, c) == None ==> Stop(t, c) == t
    ensures Die(t, c) == StopAll(Stop(t, c), FollowersOf(Stop(t, c), c))
  {
  }

  lemma OneMoreOf(list: seq<Person>, i: nat, others: set<Person>)
    requires i < |list|
    ensures others + Elems(list[..i + 1]) == others + Elems(list[..i]) + {list[i]}
  {
    assert list[..i] + [list[i]] == list[..i + 1];
  }

  lemma StopNobody(t: Ties, list: seq<Person>, others: set<Person>)
    ensures StopAll(t, list[..0]) == t && others + Elems(list[..0]) == others
  {
  }

  /** The next of c's followers still follows c when its turn comes. */
  lemma StopNext(t: Ties, c: Person, i: nat)
    requires Forest(t) && c in t.master && i < |FollowersOf(t, c)|
    ensures var list := FollowersOf(t, c);
      && list[i] in t.master && list[i] != c && list[i] !in list[..i]
      && MasterOf(StopAll(t, list[..i]), list[i]) == Some(c)
      && StopAll(t, list[..i + 1]) == Stop(StopAll(t, list[..i]), list[i])
  {
    hide Forest, ChainsEnd, ListsAgree, SelfContained, NoDup;
    KeysAgree(t);
    var list := t.followers[c];
    FollowersAre(t, c);
    ForestChains(t);
    NotOwnMaster(t, c);
    assert list[i] in list;
    ListedOnce(t, c, i);
    StopAllIs(t, list[..i]);
    assert list[..i + 1][..i] == list[..i];
  }

  lemma ForestChains(t: Ties)
    requires Forest(t)
    ensures ChainsEnd(t)
  {
  }

  lemma ListedOnce(t: Ties, c: Person, i: nat)
    requires Forest(t) && c in t.followers && i < |t.followers[c]|
    ensures t.followers[c][i] !in t.followers[c][..i]
  {
    assert NoDup(t.followers[c]);
  }

  /** The records of some people after they have been freed. */
  function FreedAll(m: map<Person, Affects.Rec>, who: set<Person>): map<Person, Affects.Rec> {
    map p | p in m :: if p in who then Freed(m[p]) else m[p]
  }

  lemma FreedNone(m: map<Person, Affects.Rec>)
    ensures FreedAll(m, {}) == m
  {
    hide Freed;
  }

  lemma FreedMore(m: map<Person, Affects.Rec>, who: set<Person>, c: Person)
    requires c !in who
    ensures FreedAll(FreedAll(m, who), {c}) == FreedAll(m, who + {c})
  {
    hide Freed;
  }

  // ----- what a link is ---------------------------------------------------

  /** The newest follower is first, the others as they were; nobody else's list changes. */
  lemma AddedFirst(t: Ties, c: Person, leader: Person)
    requires c in t.master && t.master[c] == None && leader in t.followers
    ensures var u := Add(t, c, leader);
      && u.master == t.master[c := Some(leader)]
      && u.followers.Keys == t.followers.Keys && |u.followers[leader]| == |t.followers[leader]| + 1
      && u.followers[leader][0] == c && u.followers[leader][1..] == t.followers[leader]
      && forall m | m in t.followers && m != leader :: u.followers[m] == t.followers[m]
  {
  }

  /** Taking somebody out of a list leaves the rest in their order. */
  lemma {:induction false} ExceptKeepsOrder(a: seq<Person>, b: seq<Person>, c: Person)
    requires c !in a && c !in b
    ensures Except(a, c) == a && Except(a + [c] + b, c) == a + b
  {
    ExceptJoins(a + [c], b, c);
    ExceptJoins(a, [c], c);
    ExceptNone(a, c);
    ExceptNone(b, c);
    assert [c][..0] == [] && a + [] == a;
  }

  lemma {:induction false} ExceptJoins(a: seq<Person>, b: seq<Person>, c: Person)
    ensures Except(a + b, c) == Except(a, c) + Except(b, c)
  {
    if b == [] {
      assert a + b == a;
    } else {
      assert (a + b)[..|a + b| - 1] == a + b[..|b| - 1];
      ExceptJoins(a, b[..|b| - 1], c);
    }
  }

  lemma {:induction false} ExceptNone(a: seq<Person>, c: Person)
    requires c !in a
    ensures Except(a, c) == a
  {
    if a != [] {
      assert a == a[..|a| - 1] + [a[|a| - 1]];
      ExceptNone(a[..|a| - 1], c);
    }
  }

  /** Whoever is freed loses nothing else: every other flag of its own and every other spell stays, and
      its flags are otherwise what those and what it wears raise. */
  lemma FreedElse(r: Affects.Rec, f: nat)
    requires f != AFFECT_CHARM && f != AFFECT_GROUP
    ensures f in Freed(r).baseAffectFlags <==> f in r.baseAffectFlags
    ensures Freed(r).rolled == r.rolled && Freed(r).worn == r.worn && Freed(r).mobile == r.mobile
    ensures Freed(r).affects == Affects.Lacking(r.affects, SPELL_CHARM)
    ensures f in Freed(r).affectFlags <==>
            || f in r.baseAffectFlags
            || (r.worn.Some? && exists i | 0 <= i < |r.worn.value| && r.worn.value[i].Some? :: f in r.worn.value[i].value.permAffect)
            || exists a | a in Affects.Lacking(r.affects, SPELL_CHARM) :: f in a.bits
  {
    if forall a | a in r.affects :: a.spell != SPELL_CHARM {
      Affects.LackingAbsent(r.affects, SPELL_CHARM);
    }
    hide Affects.Lacking, Affects.ApplyAll, Affects.ModifiersOf, Affects.FlagsOf, Affects.Clamped;
    var q := r.(affects := Affects.Lacking(r.affects, SPELL_CHARM), baseAffectFlags := r.baseAffectFlags - {AFFECT_CHARM, AFFECT_GROUP});
    Affects.FlagsAre(q, f);
    SameFlags(Freed(r), q, f);
  }

  lemma SameFlags(u: Affects.Rec, q: Affects.Rec, f: nat)
    requires u.worn == q.worn && u.affects == q.affects && u.baseAffectFlags == q.baseAffectFlags
    ensures Affects.FlagsOf(u) == Affects.FlagsOf(q)
  {
  }
}
