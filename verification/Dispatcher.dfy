/** Tenant-fair claim ordering: workspaces take turns until the limit is reached or no
    workspace has eligible work left. */
module Dispatcher {
  import opened Arithmetic

  type Workspace = nat

  /** A dictionary as its keys in insertion order and its values. */
  datatype Eligible = Eligible(keys: seq<Workspace>, count: map<Workspace, int>) {
    ghost predicate Valid() {
      && (forall w :: w in keys <==> w in count)
      && (forall i, j :: 0 <= i < j < |keys| ==> keys[i] != keys[j])
    }

    /** The workspace's eligible jobs; a negative count is none. */
    function Due(w: Workspace): nat {
      if w in count && count[w] > 0 then count[w] else 0
    }
  }

  // ----- The ideal, unlimited round-robin -----

  /** Round `r` lists, in dictionary order, the workspaces with more than `r` eligible
      jobs; this is its part up to position `i`. */
  function Round(e: Eligible, i: nat, r: nat): seq<Workspace>
    requires i <= |e.keys|
  {
    if i == 0 then []
    else Round(e, i - 1, r) + if e.Due(e.keys[i - 1]) > r then [e.keys[i - 1]] else []
  }

  function Rounds(e: Eligible, r: nat): seq<Workspace> {
    if r == 0 then [] else Rounds(e, r - 1) + Round(e, |e.keys|, r - 1)
  }

  function Most(e: Eligible, i: nat): nat
    requires i <= |e.keys|
  {
    if i == 0 then 0 else Max(Most(e, i - 1), e.Due(e.keys[i - 1]))
  }

  /** Every eligible job in round-robin order. */
  function Ideal(e: Eligible): seq<Workspace> { Rounds(e, Most(e, |e.keys|)) }

  function Prefix(s: seq<Workspace>, n: nat): seq<Workspace> { s[..Min(n, |s|)] }

  function Allowed(limit: int, running: int, ceiling: int): nat {
    Max(0, Min(limit, Max(0, ceiling - running)))
  }

  function Left(e: Eligible, w: Workspace, r: nat): nat { Max(0, e.Due(w) - r) }

  // ----- The dispatcher -----

  method Order(e: Eligible, limit: int, running: int, ceiling: int) returns (ordered: seq<Workspace>)
    requires e.Valid()
    ensures ordered == Prefix(Ideal(e), Allowed(limit, running, ceiling))
    ensures RoomUsed(e, limit, running, ceiling, |ordered|)
  {
    AllowedIsUsed(e, limit, running, ceiling);
    var capacity := Max(0, ceiling - running);
    var room := Min(limit, capacity);
    if room <= 0 {
      return [];
    }
    var remaining := map w | w in e.count :: Max(0, e.count[w]);
    ordered := [];
    ghost var r: nat := 0;
    while |ordered| < room
      invariant |ordered| < room ==> ordered == Rounds(e, r) && Remaining(e, remaining, 0, r)
      invariant |ordered| >= room ==> ordered == Prefix(Ideal(e), room)
      decreases room - |ordered|
    {
      var progressed;
      ordered, remaining, progressed := TakeRound(e, room, ordered, remaining, r);
      RoundDone(e, r, room, ordered);
      if !progressed {
        break;
      }
      r := r + 1;
    }
  }

  /** One pass of the outer loop: every workspace is offered one turn. */
  method TakeRound(e: Eligible, room: nat, before: seq<Workspace>, left: map<Workspace, int>, ghost r: nat)
    returns (ordered: seq<Workspace>, remaining: map<Workspace, int>, progressed: bool)
    requires |before| < room && Remaining(e, left, 0, r)
    ensures ordered == Prefix(before + Round(e, |e.keys|, r), room)
    ensures progressed <==> Round(e, |e.keys|, r) != []
    ensures |ordered| < room ==> Remaining(e, remaining, 0, r + 1)
  {
    ordered, remaining, progressed := before, left, false;
    for i := 0 to |e.keys|
      invariant Served(e, before, room, i, r, ordered, remaining, progressed)
    {
      var w := e.keys[i];
      var count := remaining[w];
      NextTurn(e, before, room, i, r, ordered, remaining, progressed);
      if count <= 0 || |ordered| >= room {
        continue;
      }
      ordered := ordered + [w];
      remaining := remaining[w := count - 1];
      progressed := true;
    }
  }

  /** In round `r`, the first `i` workspaces have had their turn. */
  ghost predicate Remaining(e: Eligible, remaining: map<Workspace, int>, i: nat, r: nat) {
    && e.Valid() && remaining.Keys == e.count.Keys
    && forall j :: 0 <= j < |e.keys| ==> remaining[e.keys[j]] == Left(e, e.keys[j], if j < i then r + 1 else r)
  }

  ghost predicate Served(e: Eligible, before: seq<Workspace>, room: nat, i: nat, r: nat,
                         ordered: seq<Workspace>, remaining: map<Workspace, int>, progressed: bool)
    requires i <= |e.keys|
  {
    && e.Valid() && remaining.Keys == e.count.Keys && |before| < room
    && ordered == Prefix(before + Round(e, i, r), room)
    && (progressed <==> Round(e, i, r) != [])
    && (|ordered| < room ==> Remaining(e, remaining, i, r))
  }

  lemma NextTurn(e: Eligible, before: seq<Workspace>, room: nat, i: nat, r: nat,
                 ordered: seq<Workspace>, remaining: map<Workspace, int>, progressed: bool)
    requires i < |e.keys| && Served(e, before, room, i, r, ordered, remaining, progressed)
    ensures e.keys[i] in remaining
    ensures var w := e.keys[i];
            if remaining[w] <= 0 || |ordered| >= room
            then Served(e, before, room, i + 1, r, ordered, remaining, progressed)
            else Served(e, before, room, i + 1, r, ordered + [w], remaining[w := remaining[w] - 1], true)
  {
    assert e.keys[i] in e.keys;
  }

  lemma RoundDone(e: Eligible, r: nat, room: nat, ordered: seq<Workspace>)
    requires e.Valid() && |Rounds(e, r)| < room
    requires ordered == Prefix(Rounds(e, r) + Round(e, |e.keys|, r), room)
    ensures |ordered| < room ==> ordered == Rounds(e, r + 1)
    ensures |ordered| >= room ==> ordered == Prefix(Ideal(e), room)
    ensures Round(e, |e.keys|, r) == [] ==> ordered == Prefix(Ideal(e), room)
  {
    RoundsWithinIdeal(e, r + 1);
    if Round(e, |e.keys|, r) == [] {
      EmptyRoundEnds(e, r);
    }
  }

  // ----- Facts about the ideal order -----

  lemma {:induction false} MostBoundsAll(e: Eligible, i: nat)
    requires i <= |e.keys|
    ensures forall j :: 0 <= j < i ==> e.Due(e.keys[j]) <= Most(e, i)
    ensures Most(e, i) == 0 || exists j :: 0 <= j < i && e.Due(e.keys[j]) == Most(e, i)
  {
    if i > 0 {
      MostBoundsAll(e, i - 1);
    }
  }

  /** How often a workspace is listed. */
  function Turns(s: seq<Workspace>, w: Workspace): nat {
    if s == [] then 0 else Turns(s[..|s| - 1], w) + if s[|s| - 1] == w then 1 else 0
  }

  lemma {:induction false} TurnsAdd(s: seq<Workspace>, t: seq<Workspace>, w: Workspace)
    ensures Turns(s + t, w) == Turns(s, w) + Turns(t, w)
  {
    if t == [] {
      assert s + t == s;
    } else {
      TurnsAdd(s, t[..|t| - 1], w);
      assert (s + t)[..|s + t| - 1] == s + t[..|t| - 1];
    }
  }

  /** A workspace takes one turn in each round it still has work for. Its position is `p`;
      a workspace without one is given the position past the last. */
  lemma {:induction false} TurnsInRound(e: Eligible, i: nat, r: nat, w: Workspace, p: nat)
    requires i <= |e.keys| && OnlyAt(e, w, p)
    ensures Turns(Round(e, i, r), w) == if p < i && e.Due(w) > r then 1 else 0
  {
    if i > 0 {
      TurnsInRound(e, i - 1, r, w, p);
      TurnsOfNext(e, i - 1, r, w);
    }
  }

  lemma TurnsOfNext(e: Eligible, i: nat, r: nat, w: Workspace)
    requires i < |e.keys|
    ensures Turns(Round(e, i + 1, r), w)
            == Turns(Round(e, i, r), w) + if e.keys[i] == w && e.Due(w) > r then 1 else 0
  {
    var before := Round(e, i, r);
    if e.Due(e.keys[i]) > r {
      OneMoreTurn(before, e.keys[i], w);
      assert Round(e, i + 1, r) == before + [e.keys[i]];
    } else {
      assert Round(e, i + 1, r) == before;
    }
  }

  lemma OneMoreTurn(s: seq<Workspace>, v: Workspace, w: Workspace)
    ensures Turns(s + [v], w) == Turns(s, w) + if v == w then 1 else 0
  {
    assert (s + [v])[..|s|] == s;
  }

  ghost predicate OnlyAt(e: Eligible, w: Workspace, p: nat) {
    forall j :: 0 <= j < |e.keys| ==> (e.keys[j] == w <==> j == p)
  }

  lemma AtOnly(e: Eligible, w: Workspace, p: nat)
    requires e.Valid() && At(e, w, p)
    ensures OnlyAt(e, w, p) && (p < |e.keys| || e.Due(w) == 0)
  {
  }

  predicate At(e: Eligible, w: Workspace, p: nat) {
    if p < |e.keys| then e.keys[p] == w else w !in e.keys
  }

  lemma {:induction false} TurnsInRounds(e: Eligible, r: nat, w: Workspace, p: nat)
    requires e.Valid() && At(e, w, p)
    ensures Turns(Rounds(e, r), w) == Min(e.Due(w), r)
  {
    if r > 0 {
      TurnsInRounds(e, r - 1, w, p);
      AtOnly(e, w, p);
      TurnsInRound(e, |e.keys|, r - 1, w, p);
      TurnsAdd(Rounds(e, r - 1), Round(e, |e.keys|, r - 1), w);
      assert Turns(Rounds(e, r), w) == Turns(Rounds(e, r - 1), w) + Turns(Round(e, |e.keys|, r - 1), w);
    }
  }

  lemma Position(e: Eligible, w: Workspace) returns (p: nat)
    ensures At(e, w, p)
  {
    p := |e.keys|;
    if w in e.keys {
      p :| p < |e.keys| && e.keys[p] == w;
    }
  }

  lemma {:induction false} LaterRoundsEmpty(e: Eligible, i: nat, r: nat)
    requires i <= |e.keys| && forall j :: 0 <= j < i ==> e.Due(e.keys[j]) <= r
    ensures Round(e, i, r) == []
  {
    if i > 0 {
      LaterRoundsEmpty(e, i - 1, r);
    }
  }

  lemma {:induction false} RoundsExtend(e: Eligible, r: nat, q: nat)
    requires r <= q
    ensures Rounds(e, r) <= Rounds(e, q)
    ensures Most(e, |e.keys|) <= r ==> Rounds(e, r) == Rounds(e, q)
  {
    if r < q {
      RoundsExtend(e, r, q - 1);
      if Most(e, |e.keys|) <= r {
        MostBoundsAll(e, |e.keys|);
        LaterRoundsEmpty(e, |e.keys|, q - 1);
      }
    }
  }

  lemma RoundsWithinIdeal(e: Eligible, r: nat)
    ensures Rounds(e, r) <= Ideal(e)
  {
    var most := Most(e, |e.keys|);
    RoundsExtend(e, Min(r, most), Max(r, most));
  }

  lemma EmptyRoundEnds(e: Eligible, r: nat)
    requires e.Valid() && Round(e, |e.keys|, r) == []
    ensures Rounds(e, r) == Ideal(e)
  {
    var most := Most(e, |e.keys|);
    MostBoundsAll(e, |e.keys|);
    if most > r {
      var j :| 0 <= j < |e.keys| && e.Due(e.keys[j]) == most;
      AtOnly(e, e.keys[j], j);
      TurnsInRound(e, |e.keys|, r, e.keys[j], j);
    } else {
      RoundsExtend(e, most, r);
    }
  }

  // ----- What the order guarantees -----

  /** A prefix stops inside one round. */
  lemma {:induction false} StopsInARound(e: Eligible, n: nat, q: nat) returns (r: nat)
    requires n <= |Rounds(e, q)|
    ensures |Rounds(e, r)| <= n && Rounds(e, r) <= Rounds(e, q)
    ensures n > |Rounds(e, r)| ==> n <= |Rounds(e, r + 1)| && Rounds(e, r + 1) <= Rounds(e, q)
  {
    if n == |Rounds(e, q)| {
      r := q;
    } else if n >= |Rounds(e, q - 1)| {
      r := q - 1;
    } else {
      r := StopsInARound(e, n, q - 1);
    }
  }

  lemma TurnsBetween(e: Eligible, r: nat, p: seq<Workspace>, w: Workspace)
    requires e.Valid() && Rounds(e, r) <= p
    requires p == Rounds(e, r) || p <= Rounds(e, r + 1)
    ensures Min(e.Due(w), r) <= Turns(p, w) <= Min(e.Due(w), r + 1)
  {
    var at := Position(e, w);
    TurnsInRounds(e, r, w, at);
    TurnsInRounds(e, r + 1, w, at);
    var rest := p[|Rounds(e, r)|..];
    assert p == Rounds(e, r) + rest;
    TurnsAdd(Rounds(e, r), rest, w);
    if p != Rounds(e, r) {
      var more := Rounds(e, r + 1)[|p|..];
      assert Rounds(e, r + 1) == p + more;
      TurnsAdd(p, more, w);
    } else {
      assert rest == [];
    }
  }

  /** No workspace is listed more often than it has eligible jobs, and one that is still
      waiting for a turn is never more than one turn behind any other. */
  lemma FairShare(e: Eligible, n: nat, a: Workspace, b: Workspace)
    requires e.Valid()
    ensures Turns(Prefix(Ideal(e), n), a) <= e.Due(a)
    ensures Turns(Prefix(Ideal(e), n), b) < e.Due(b) ==>
              Turns(Prefix(Ideal(e), n), a) <= Turns(Prefix(Ideal(e), n), b) + 1
  {
    var p := Prefix(Ideal(e), n);
    var r := StopsInARound(e, |p|, Most(e, |e.keys|));
    TurnsBetween(e, r, p, a);
    TurnsBetween(e, r, p, b);
  }

  function Total(e: Eligible, i: nat): nat
    requires i <= |e.keys|
  {
    if i == 0 then 0 else Total(e, i - 1) + e.Due(e.keys[i - 1])
  }

  /** No capacity is left unused while a workspace has eligible jobs. */
  lemma CapacityIsUsed(e: Eligible, n: nat)
    requires e.Valid()
    ensures |Prefix(Ideal(e), n)| == Min(n, Total(e, |e.keys|))
  {
    var most := Most(e, |e.keys|);
    RoundsLength(e, most);
    MostBoundsAll(e, |e.keys|);
    CapsAreLoose(e, |e.keys|, most);
  }

  /** An order of `n` turns stays within the limit and the room the running jobs leave, and
      stops short of neither of them while a workspace has eligible jobs. */
  ghost predicate RoomUsed(e: Eligible, limit: int, running: int, ceiling: int, n: int) {
    && 0 <= n <= Total(e, |e.keys|)
    && (n > 0 ==> n <= limit && running + n <= ceiling)
    && (n == Total(e, |e.keys|) || n >= limit || running + n >= ceiling)
  }

  lemma AllowedIsUsed(e: Eligible, limit: int, running: int, ceiling: int)
    requires e.Valid()
    ensures RoomUsed(e, limit, running, ceiling, |Prefix(Ideal(e), Allowed(limit, running, ceiling))|)
  {
    CapacityIsUsed(e, Allowed(limit, running, ceiling));
  }

  function Capped(e: Eligible, i: nat, r: nat): nat
    requires i <= |e.keys|
  {
    if i == 0 then 0 else Capped(e, i - 1, r) + Min(e.Due(e.keys[i - 1]), r)
  }

  lemma {:induction false} CapsAreLoose(e: Eligible, i: nat, r: nat)
    requires i <= |e.keys| && forall j :: 0 <= j < i ==> e.Due(e.keys[j]) <= r
    ensures Capped(e, i, r) == Total(e, i)
  {
    if i > 0 {
      CapsAreLoose(e, i - 1, r);
    }
  }

  lemma {:induction false} RoundsLength(e: Eligible, r: nat)
    ensures |Rounds(e, r)| == Capped(e, |e.keys|, r)
  {
    if r == 0 {
      CappedGrows(e, |e.keys|, 0);
    } else {
      RoundsLength(e, r - 1);
      CappedGrows(e, |e.keys|, r - 1);
    }
  }

  lemma {:induction false} CappedGrows(e: Eligible, i: nat, r: nat)
    requires i <= |e.keys|
    ensures Capped(e, i, r + 1) == Capped(e, i, r) + |Round(e, i, r)|
    ensures r == 0 ==> Capped(e, i, r) == 0
  {
    if i > 0 {
      CappedGrows(e, i - 1, r);
    }
  }
}
