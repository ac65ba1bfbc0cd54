/** The audit hash chain of the database: an insert trigger that extends it, a one-pass
    backfill that builds the chains of all workspaces, and a verifier. */
module AuditChain {
  import opened Wrappers
  import Sorting

  type Uuid = nat

  /** The columns the digest covers. */
  datatype Fields = Fields(
    workspace: Uuid, id: Uuid, actorType: string, actor: Option<Uuid>, action: string,
    targetType: string, target: Option<Uuid>, outcome: string, details: string,
    decision: Option<Uuid>, correlation: Option<string>, classification: string, recordedAt: int)

  /** An audit event as it is inserted; the causation reference is not part of the digest. */
  datatype Event = Event(fields: Fields, causation: Option<Uuid>)

  /** A stored row. The three chain columns are nullable. */
  datatype Row = Row(event: Event, sequence: Option<int>, previous: Option<string>, digest: Option<string>)

  datatype Head = Head(sequence: int, digest: string, verified: int)
  datatype Log = Log(rows: seq<Row>, heads: map<Uuid, Head>)

  const EMPTY_LOG := Log([], map[])

  // ----- The digest -----

  /** SHA-256 in hexadecimal, and the JSON text of the digested columns. */
  datatype Digester = Digester(sha: string -> string, json: (int, Fields) -> string)

  ghost predicate HexDigest(d: Digester, s: string) {
    d.sha(s) != "" && '|' !in d.sha(s)
  }

  ghost predicate JsonDiffers(d: Digester, n: int, f: Fields, m: int, g: Fields) {
    d.json(n, f) == d.json(m, g) ==> n == m && f == g
  }

  /** A digest is never empty and never contains the separator; the JSON text determines
      the columns. Nothing is assumed about collisions. */
  ghost predicate Sound(d: Digester) {
    && (forall s :: HexDigest(d, s))
    && (forall n, f, m, g :: JsonDiffers(d, n, f, m, g))
  }

  function Preimage(d: Digester, prior: string, sequence: int, f: Fields): string {
    prior + "|" + d.json(sequence, f)
  }

  function Compute(d: Digester, prior: string, sequence: int, f: Fields): string {
    d.sha(Preimage(d, prior, sequence, f))
  }

  /** The chain digest after the first `n` events. */
  function Fold(d: Digester, events: seq<Event>, n: nat): string
    requires n <= |events|
  {
    if n == 0 then "" else Compute(d, Fold(d, events, n - 1), n, events[n - 1].fields)
  }

  /** It depends on nothing but the digested columns of those events. */
  lemma {:induction false} SameFieldsSameFold(d: Digester, a: seq<Event>, b: seq<Event>, n: nat)
    requires n <= |a| && n <= |b| && forall i :: 0 <= i < n ==> a[i].fields == b[i].fields
    ensures Fold(d, a, n) == Fold(d, b, n)
  {
    if n > 0 {
      SameFieldsSameFold(d, a, b, n - 1);
    }
  }

  function NullIf(s: string): Option<string> { if s == "" then None else Some(s) }

  /** The rows a workspace's events make when they are chained from scratch. */
  function Chained(d: Digester, events: seq<Event>): (rows: seq<Row>)
    ensures |rows| == |events|
  {
    seq(|events|, i requires 0 <= i < |events| => ChainedRow(d, events, i))
  }

  function ChainedRow(d: Digester, events: seq<Event>, i: nat): Row
    requires i < |events|
  {
    Row(events[i], Some(i + 1), NullIf(Fold(d, events, i)), Some(Fold(d, events, i + 1)))
  }

  /** Each row is numbered in turn and carries the digest of the row before it; the first
      one carries none. */
  lemma RowsAreLinked(d: Digester, events: seq<Event>, i: nat)
    requires Sound(d) && i < |events|
    ensures var rows := Chained(d, events);
            && rows[i].event == events[i] && rows[i].sequence == Some(i + 1)
            && rows[i].previous == (if i == 0 then None else rows[i - 1].digest)
            && rows[i].digest == Some(d.sha(rows[i].previous.GetOr("") + "|" + d.json(i + 1, events[i].fields)))
  {
    FoldEmptyOnlyAtStart(d, events, i);
  }

  /** A digest covers the prior digest, the sequence number and every digested column. */
  lemma DigestCovers(d: Digester, prior: string, n: int, f: Fields, other: string, m: int, g: Fields)
    requires Sound(d) && '|' !in prior && '|' !in other
    ensures Compute(d, prior, n, f) == Compute(d, other, m, g) ==>
              || (prior == other && n == m && f == g)
              || (var x, y := prior + "|" + d.json(n, f), other + "|" + d.json(m, g);
                  x != y && d.sha(x) == d.sha(y))
  {
    if prior + "|" + d.json(n, f) == other + "|" + d.json(m, g) {
      SplitAtSeparator(prior, d.json(n, f), other, d.json(m, g));
      assert JsonDiffers(d, n, f, m, g);
    }
  }

  // ----- The insert trigger -----

  function HeadOf(log: Log, w: Uuid): Head {
    if w in log.heads then log.heads[w] else Head(0, "", 0)
  }

  function NewRow(d: Digester, head: Head, e: Event): Row {
    Row(e, Some(head.sequence + 1), NullIf(head.digest), Some(Compute(d, head.digest, head.sequence + 1, e.fields)))
  }

  function Insert(d: Digester, log: Log, e: Event): Log {
    var w := e.fields.workspace;
    var head := HeadOf(log, w);
    var row := NewRow(d, head, e);
    Log(log.rows + [row], log.heads[w := head.(sequence := head.sequence + 1, digest := row.digest.value)])
  }

  function InsertAll(d: Digester, log: Log, events: seq<Event>): Log {
    if events == [] then log
    else Insert(d, InsertAll(d, log, events[..|events| - 1]), events[|events| - 1])
  }

  function EventsOf(events: seq<Event>, w: Uuid): seq<Event> {
    if events == [] then [] else
      var last := events[|events| - 1];
      EventsOf(events[..|events| - 1], w) + if last.fields.workspace == w then [last] else []
  }

  function RowsOf(rows: seq<Row>, w: Uuid): seq<Row> {
    if rows == [] then [] else
      var last := rows[|rows| - 1];
      RowsOf(rows[..|rows| - 1], w) + if last.event.fields.workspace == w then [last] else []
  }

  /** The rows of `w` are its own events chained from scratch, and its head holds their
      number and final digest. */
  ghost predicate Holds(d: Digester, log: Log, w: Uuid, own: seq<Event>) {
    && RowsOf(log.rows, w) == Chained(d, own)
    && HeadOf(log, w).sequence == |own| && HeadOf(log, w).digest == Fold(d, own, |own|)
    && (own != [] ==> w in log.heads)
  }

  /** Whatever is inserted, in whatever interleaving, every workspace has its own chain. */
  lemma {:induction false} EveryLogIsChained(d: Digester, events: seq<Event>, w: Uuid)
    ensures Holds(d, InsertAll(d, EMPTY_LOG, events), w, EventsOf(events, w))
  {
    if events != [] {
      var before, last := events[..|events| - 1], events[|events| - 1];
      EveryLogIsChained(d, before, w);
      InsertExtends(d, InsertAll(d, EMPTY_LOG, before), last, w, EventsOf(before, w));
    }
  }

  /** One insert extends its own workspace's chain and leaves every other one alone. */
  lemma InsertExtends(d: Digester, log: Log, e: Event, w: Uuid, own: seq<Event>)
    requires Holds(d, log, w, own)
    ensures Holds(d, Insert(d, log, e), w, own + if e.fields.workspace == w then [e] else [])
    ensures e.fields.workspace != w ==> HeadOf(Insert(d, log, e), w) == HeadOf(log, w)
  {
    var after := Insert(d, log, e);
    assert after.rows[..|after.rows| - 1] == log.rows;
    assert own + [] == own;
    if e.fields.workspace == w {
      ChainedExtends(d, own, e);
      assert NewRow(d, HeadOf(log, w), e) == NewRow(d, Head(|own|, Fold(d, own, |own|), 0), e);
    }
  }

  lemma ChainedExtends(d: Digester, own: seq<Event>, e: Event)
    ensures Fold(d, own + [e], |own| + 1) == Compute(d, Fold(d, own, |own|), |own| + 1, e.fields)
    ensures Chained(d, own + [e]) == Chained(d, own) + [NewRow(d, Head(|own|, Fold(d, own, |own|), 0), e)]
  {
    forall i | 0 <= i <= |own| ensures Fold(d, own + [e], i) == Fold(d, own, i) {
      SameFieldsSameFold(d, own + [e], own, i);
    }
  }

  // ----- The verifier -----

  /** What makes the verifier return FALSE at row `i`. In SQL a comparison with NULL is
      not true, so a NULL sequence or digest is never a reason to reject. */
  predicate Rejected(d: Digester, rows: seq<Row>, i: nat)
    requires i < |rows|
  {
    || (rows[i].sequence.Some? && rows[i].sequence.value != i + 1)
    || rows[i].previous.GetOr("") != Fold(d, Events(rows), i)
    || (rows[i].digest.Some? && rows[i].digest.value != Fold(d, Events(rows), i + 1))
  }

  predicate Accepts(d: Digester, rows: seq<Row>) {
    forall i :: 0 <= i < |rows| ==> !Rejected(d, rows, i)
  }

  function Events(rows: seq<Row>): (events: seq<Event>)
    ensures |events| == |rows|
  {
    seq(|rows|, i requires 0 <= i < |rows| => rows[i].event)
  }

  /** The order of a listing: by chain sequence, NULL last. */
  ghost predicate InSequence(a: Row, b: Row) {
    b.sequence.None? || (a.sequence.Some? && a.sequence.value <= b.sequence.value)
  }

  ghost predicate InOrder(listing: seq<Row>) {
    forall i, j :: 0 <= i < j < |listing| ==> InSequence(listing[i], listing[j])
  }

  /** `listing` is what `SELECT ... WHERE workspace_id = w ORDER BY chain_sequence` may return. */
  ghost predicate Lists(rows: seq<Row>, w: Uuid, listing: seq<Row>) {
    multiset(listing) == multiset(RowsOf(rows, w)) && InOrder(listing)
  }

  ghost predicate IsChained(d: Digester, log: Log, w: Uuid) {
    exists own :: Holds(d, log, w, own)
  }

  lemma InsertKeepsChains(d: Digester, log: Log, e: Event)
    requires forall w :: IsChained(d, log, w)
    ensures forall w :: IsChained(d, Insert(d, log, e), w)
  {
    forall w ensures IsChained(d, Insert(d, log, e), w) {
      assert IsChained(d, log, w);
      var own :| Holds(d, log, w, own);
      InsertExtends(d, log, e, w, own);
    }
  }

  /** The two functions of the database over its two tables. */
  class Database {
    const d: Digester
    var rows: seq<Row>
    var heads: map<Uuid, Head>

    ghost function View(): Log reads this { Log(rows, heads) }

    /** Every workspace's rows are a chain from scratch, and its head fits. */
    ghost predicate Valid()
      reads this
    {
      forall w :: IsChained(d, View(), w)
    }

    constructor (d: Digester)
      ensures this.d == d && View() == EMPTY_LOG && Valid()
    {
      this.d := d;
      rows, heads := [], map[];
      new;
      forall w ensures IsChained(d, View(), w) {
        assert Holds(d, View(), w, []);
      }
    }

    /** `chain_audit_event`, the trigger before each insert. */
    method ChainAuditEvent(e: Event)
      modifies this
      ensures View() == Insert(d, old(View()), e)
      ensures old(Valid()) ==> Valid()
    {
      if Valid() {
        InsertKeepsChains(d, View(), e);
      }
      var w := e.fields.workspace;
      if w !in heads {
        heads := heads[w := Head(0, "", 0)];
      }
      var head := heads[w];
      var sequence := head.sequence + 1;
      var digest := Compute(d, head.digest, sequence, e.fields);
      rows := rows + [Row(e, Some(sequence), NullIf(head.digest), Some(digest))];
      heads := heads[w := head.(sequence := sequence, digest := digest)];
    }

    /** `verify_audit_chain`: walks one listing, and records how far it got. */
    method VerifyAuditChain(w: Uuid, listing: seq<Row>) returns (ok: bool)
      requires Lists(rows, w, listing)
      modifies this
      ensures ok <==> Accepts(d, listing)
      ensures rows == old(rows)
      ensures heads == if ok && w in old(heads) then old(heads)[w := old(heads)[w].(verified := |listing|)]
                       else old(heads)
    {
      var prior := "";
      var expected := 0;
      for i := 0 to |listing|
        invariant expected == i && prior == Fold(d, Events(listing), i)
        invariant forall j :: 0 <= j < i ==> !Rejected(d, listing, j)
        invariant View() == old(View())
      {
        var item := listing[i];
        expected := expected + 1;
        var computed := Compute(d, prior, expected, item.event.fields);
        if (item.sequence.Some? && item.sequence.value != expected)
           || item.previous.GetOr("") != prior
           || (item.digest.Some? && item.digest.value != computed) {
          assert Rejected(d, listing, i);
          return false;
        }
        prior := computed;
      }
      if w in heads {
        heads := heads[w := heads[w].(verified := expected)];
      }
      return true;
    }
  }

  // ----- Every log the trigger builds is accepted -----

  lemma ChainedIsAccepted(d: Digester, events: seq<Event>)
    requires Sound(d)
    ensures Accepts(d, Chained(d, events)) && Events(Chained(d, events)) == events
  {
    EventsOfChained(d, events);
    forall i | 0 <= i < |events| ensures !Rejected(d, Chained(d, events), i) {
      assert Chained(d, events)[i] == ChainedRow(d, events, i);
      FoldEmptyOnlyAtStart(d, events, i);
    }
  }

  lemma EventsOfChained(d: Digester, events: seq<Event>)
    ensures Events(Chained(d, events)) == events
  {
  }

  lemma FoldEmptyOnlyAtStart(d: Digester, events: seq<Event>, n: nat)
    requires Sound(d) && n <= |events|
    ensures Fold(d, events, n) == "" <==> n == 0
    ensures '|' !in Fold(d, events, n)
  {
    if n > 0 {
      assert HexDigest(d, Preimage(d, Fold(d, events, n - 1), n, events[n - 1].fields));
    }
  }

  /** There is only one listing of a log built by the trigger, whatever ties the ORDER BY
      leaves open, and the verifier accepts it. */
  lemma EveryLogVerifies(d: Digester, events: seq<Event>, w: Uuid, listing: seq<Row>)
    requires Sound(d) && Lists(InsertAll(d, EMPTY_LOG, events).rows, w, listing)
    ensures Accepts(d, listing) && listing == Chained(d, EventsOf(events, w))
  {
    EveryLogIsChained(d, events, w);
    OneListing(d, EventsOf(events, w), listing);
    ChainedIsAccepted(d, EventsOf(events, w));
  }

  lemma OneListing(d: Digester, own: seq<Event>, listing: seq<Row>)
    requires multiset(listing) == multiset(Chained(d, own))
    requires InOrder(listing)
    ensures listing == Chained(d, own)
  {
    var rows := Chained(d, own);
    forall i | 0 <= i < |listing| ensures listing[i] in rows {
      assert listing[i] in multiset(listing);
    }
    Sorting.SortedOnDistinctKeys(listing, rows, (r: Row) => r.sequence.GetOr(0));
  }

  // ----- What the verifier does, and does not, rule out -----

  /** The text that is digested for the `n`th event of a chain. */
  function DigestedText(d: Digester, events: seq<Event>, n: nat): string
    requires 0 < n <= |events|
  {
    Preimage(d, Fold(d, events, n - 1), n, events[n - 1].fields)
  }

  /** `x` and `y` are what two chains of `n` and `m` events digest `k` places before their ends. */
  predicate DigestedAt(d: Digester, a: seq<Event>, n: nat, b: seq<Event>, m: nat, k: nat, x: string, y: string)
    requires n <= |a| && m <= |b|
  {
    k < n && k < m && x == DigestedText(d, a, n - k) && y == DigestedText(d, b, m - k)
  }

  /** Two different texts with the same SHA-256, digested by the two chains themselves at
      the same distance from their ends. */
  ghost predicate ChainsCollide(d: Digester, a: seq<Event>, n: nat, b: seq<Event>, m: nat, x: string, y: string)
    requires n <= |a| && m <= |b|
  {
    x != y && d.sha(x) == d.sha(y) && exists k: nat :: DigestedAt(d, a, n, b, m, k, x, y)
  }

  /** Two chains with one final digest are the same, column by column; otherwise two of
      the texts they digest collide. */
  lemma {:induction false} SameDigestSameChain(d: Digester, a: seq<Event>, n: nat, b: seq<Event>, m: nat)
    returns (x: string, y: string)
    requires Sound(d) && n <= |a| && m <= |b| && Fold(d, a, n) == Fold(d, b, m)
    ensures ChainsCollide(d, a, n, b, m, x, y) || (n == m && forall i :: 0 <= i < n ==> a[i].fields == b[i].fields)
  {
    x, y := "", "";
    FoldEmptyOnlyAtStart(d, a, n);
    FoldEmptyOnlyAtStart(d, b, m);
    if n > 0 && m > 0 {
      var f, g := a[n - 1].fields, b[m - 1].fields;
      var p, q := Fold(d, a, n - 1), Fold(d, b, m - 1);
      x, y := Preimage(d, p, n, f), Preimage(d, q, m, g);
      assert DigestedAt(d, a, n, b, m, 0, x, y);
      if x == y {
        FoldEmptyOnlyAtStart(d, a, n - 1);
        FoldEmptyOnlyAtStart(d, b, m - 1);
        SplitAtSeparator(p, d.json(n, f), q, d.json(m, g));
        assert JsonDiffers(d, n, f, m, g);
        x, y := SameDigestSameChain(d, a, n - 1, b, m - 1);
        if ChainsCollide(d, a, n - 1, b, m - 1, x, y) {
          var k: nat :| DigestedAt(d, a, n - 1, b, m - 1, k, x, y);
          assert DigestedAt(d, a, n, b, m, k + 1, x, y);
        }
      }
    }
  }

  lemma SplitAtSeparator(p: string, s: string, q: string, t: string)
    requires p + "|" + s == q + "|" + t && '|' !in p && '|' !in q
    ensures p == q && s == t
  {
    var whole := p + "|" + s;
    assert whole[|p|] == '|' && whole[|q|] == '|';
    assert forall k :: 0 <= k < |p| ==> whole[k] == p[k];
    assert forall k :: 0 <= k < |q| ==> whole[k] == q[k];
    assert |p| == |q|;
    assert p == whole[..|p|] && q == whole[..|q|];
    assert s == whole[|p| + 1..] && t == whole[|q| + 1..];
  }

  /** Two accepted listings that end in the same stored digest agree in every digested
      column and in every chain column that is not NULL, unless two of the texts the
      verifier digests for them collide. */
  lemma AcceptedLogsAgree(d: Digester, a: seq<Row>, b: seq<Row>) returns (x: string, y: string)
    requires Sound(d) && Accepts(d, a) && Accepts(d, b) && a != [] && b != []
    requires a[|a| - 1].digest.Some? && a[|a| - 1].digest == b[|b| - 1].digest
    ensures ChainsCollide(d, Events(a), |a|, Events(b), |b|, x, y)
            || (|a| == |b| && forall i :: 0 <= i < |a| ==> SameRecord(a[i], b[i]))
  {
    assert !Rejected(d, a, |a| - 1) && !Rejected(d, b, |b| - 1);
    x, y := SameDigestSameChain(d, Events(a), |a|, Events(b), |b|);
    if !ChainsCollide(d, Events(a), |a|, Events(b), |b|, x, y) {
      forall i | 0 <= i < |a| ensures SameRecord(a[i], b[i]) {
        SameRecordAt(d, a, b, i);
      }
    }
  }

  lemma SameRecordAt(d: Digester, a: seq<Row>, b: seq<Row>, i: nat)
    requires i < |a| == |b| && !Rejected(d, a, i) && !Rejected(d, b, i)
    requires forall j :: 0 <= j < |a| ==> Events(a)[j].fields == Events(b)[j].fields
    ensures SameRecord(a[i], b[i])
  {
    assert Events(a)[i].fields == Events(b)[i].fields;
    SameFieldsSameFold(d, Events(a), Events(b), i);
    SameFieldsSameFold(d, Events(a), Events(b), i + 1);
  }

  ghost predicate SameRecord(r: Row, q: Row) {
    && r.event.fields == q.event.fields
    && (r.sequence == q.sequence || r.sequence.None? || q.sequence.None?)
    && r.previous.GetOr("") == q.previous.GetOr("")
    && (r.digest == q.digest || r.digest.None? || q.digest.None?)
  }

  /** The records that may stand at position `i` of an accepted listing. */
  predicate Fits(d: Digester, rows: seq<Row>, i: nat, r: Row)
    requires i < |rows|
  {
    var prior := Fold(d, Events(rows), i);
    var digest := Compute(d, prior, i + 1, r.event.fields);
    && (r.sequence.None? || r.sequence.value == i + 1)
    && r.previous.GetOr("") == prior
    && (r.digest.None? || r.digest.value == digest)
    && (i < |rows| - 1 ==> digest == Fold(d, Events(rows), i + 1))
  }

  /** An accepted listing with another record in place of its `i`th. */
  lemma ReplacedInPlace(d: Digester, rows: seq<Row>, i: nat, r: Row)
    requires Sound(d) && Accepts(d, rows) && i < |rows|
    ensures Accepts(d, rows[i := r]) <==> Fits(d, rows, i, r)
  {
    var edited := rows[i := r];
    SameFieldsSameFold(d, Events(edited), Events(rows), i);
    if Accepts(d, edited) {
      assert !Rejected(d, edited, i);
      if i < |rows| - 1 {
        assert !Rejected(d, rows, i + 1) && !Rejected(d, edited, i + 1);
      }
    }
    if Fits(d, rows, i, r) {
      forall j | 0 <= j < |rows| ensures !Rejected(d, edited, j) {
        assert !Rejected(d, rows, j);
        if j < i {
          SameFieldsSameFold(d, Events(edited), Events(rows), j);
          SameFieldsSameFold(d, Events(edited), Events(rows), j + 1);
        } else if j > i {
          FoldAfterEdit(d, Events(rows), Events(edited), i, j);
        }
      }
    }
  }

  lemma {:induction false} FoldAfterEdit(d: Digester, a: seq<Event>, b: seq<Event>, i: nat, j: nat)
    requires i < j < |a| == |b| && Fold(d, b, i + 1) == Fold(d, a, i + 1)
    requires forall k :: i < k < |a| ==> a[k] == b[k]
    ensures Fold(d, b, j) == Fold(d, a, j) && Fold(d, b, j + 1) == Fold(d, a, j + 1)
  {
    if j > i + 1 {
      FoldAfterEdit(d, a, b, i, j - 1);
    }
  }

  lemma {:induction false} RowsOfParts(a: seq<Row>, b: seq<Row>, w: Uuid)
    ensures RowsOf(a + b, w) == RowsOf(a, w) + RowsOf(b, w)
  {
    if b == [] {
      assert a + b == a;
    } else {
      assert (a + b)[..|a + b| - 1] == a + b[..|b| - 1];
      RowsOfParts(a, b[..|b| - 1], w);
    }
  }

  /** A record at position `p` of the table is the `i`th of its workspace; replacing or
      deleting it does the same to the workspace's own rows. */
  lemma RowsOfEdited(table: seq<Row>, p: nat, r: Row, w: Uuid)
    requires p < |table| && table[p].event.fields.workspace == w == r.event.fields.workspace
    ensures var rows, i := RowsOf(table, w), |RowsOf(table[..p], w)|;
            && i < |rows|
            && RowsOf(table[p := r], w) == rows[i := r]
            && RowsOf(table[..p] + table[p + 1..], w) == rows[..i] + rows[i + 1..]
  {
    var before, after := table[..p], table[p + 1..];
    assert table == before + ([table[p]] + after) && table[p := r] == before + ([r] + after);
    RowsOfParts(before, [table[p]] + after, w);
    RowsOfParts([table[p]], after, w);
    RowsOfParts(before, [r] + after, w);
    RowsOfParts([r], after, w);
    RowsOfParts(before, after, w);
    assert [table[p]][..0] == [] && [r][..0] == [];
    assert RowsOf([table[p]], w) == [table[p]] && RowsOf([r], w) == [r];
  }

  /** Records with NULL last, each before the next, leave the ORDER BY no choice. */
  lemma ListedAs(rows: seq<Row>, listing: seq<Row>)
    requires multiset(listing) == multiset(rows)
    requires InOrder(listing)
    requires forall i, j :: 0 <= i < j < |rows| ==> !InSequence(rows[j], rows[i])
    requires forall i :: 0 <= i < |rows| ==> rows[i].sequence.Some? ==> rows[i].sequence.value <= |rows|
    ensures listing == rows
  {
    var key := (r: Row) => r.sequence.GetOr(|rows| + 1);
    forall i | 0 <= i < |listing| ensures listing[i] in rows {
      assert listing[i] in multiset(listing);
    }
    Sorting.SortedOnDistinctKeys(listing, rows, key);
  }

  /** Rewriting one record of a chained log goes unnoticed exactly when it fits its place
      and the query still lists it there: a record that lost its sequence number is listed
      last. An inner record needs digested columns with the same digest; the last one may
      say anything, with a matching digest or with none. */
  lemma EditAcceptedIff(d: Digester, table: seq<Row>, w: Uuid, own: seq<Event>, p: nat, r: Row, listing: seq<Row>)
    requires Sound(d) && RowsOf(table, w) == Chained(d, own)
    requires p < |table| && table[p].event.fields.workspace == w == r.event.fields.workspace
    requires Lists(table[p := r], w, listing)
    ensures var i := |RowsOf(table[..p], w)|;
            && i < |own|
            && (Accepts(d, listing) <==>
                Fits(d, Chained(d, own), i, r) && (r.sequence.Some? || i == |own| - 1))
  {
    RowsOfEdited(table, p, r, w);
    EditedListing(d, own, |RowsOf(table[..p], w)|, r, listing);
  }

  lemma EditedListing(d: Digester, own: seq<Event>, i: nat, r: Row, listing: seq<Row>)
    requires Sound(d) && i < |own|
    requires multiset(listing) == multiset(Chained(d, own)[i := r]) && InOrder(listing)
    ensures Accepts(d, listing) <==> Fits(d, Chained(d, own), i, r) && (r.sequence.Some? || i == |own| - 1)
  {
    var rows := Chained(d, own);
    if r.sequence == Some(i + 1) || (r.sequence.None? && i == |own| - 1) {
      ListedAs(rows[i := r], listing);
      ChainedIsAccepted(d, own);
      ReplacedInPlace(d, rows, i, r);
    } else {
      if r.sequence.None? {
        NullListedLast(rows, i, r, listing);
        assert listing[i] == rows[i + 1];
      } else {
        PlaceLeftEmpty(rows[i := r], i, listing);
      }
      assert Rejected(d, listing, i);
    }
  }

  /** No listing can show at position `i` a record with its number when there is none. */
  lemma PlaceLeftEmpty(rows: seq<Row>, i: nat, listing: seq<Row>)
    requires multiset(listing) == multiset(rows) && i < |rows|
    requires forall j :: 0 <= j < |rows| ==> rows[j].sequence.Some? && rows[j].sequence.value != i + 1
    ensures i < |listing| && listing[i].sequence.Some? && listing[i].sequence.value != i + 1
  {
    assert |multiset(listing)| == |listing| && |multiset(rows)| == |rows|;
    assert listing[i] in multiset(rows);
    var j :| 0 <= j < |rows| && rows[j] == listing[i];
  }

  lemma NullSortsLast(rows: seq<Row>, i: nat, r: Row)
    requires i < |rows| && r.sequence.None? && forall j :: 0 <= j < |rows| ==> rows[j].sequence == Some(j + 1)
    ensures var moved := rows[..i] + rows[i + 1..] + [r];
            && (forall j, k :: 0 <= j < k < |moved| ==> !InSequence(moved[k], moved[j]))
            && forall j :: 0 <= j < |moved| ==> moved[j].sequence.Some? ==> moved[j].sequence.value <= |moved|
  {
    var moved := rows[..i] + rows[i + 1..] + [r];
    assert forall j :: 0 <= j < |rows| - 1 ==> moved[j].sequence == Some(if j < i then j + 1 else j + 2);
  }

  lemma NullListedLast(rows: seq<Row>, i: nat, r: Row, listing: seq<Row>)
    requires i < |rows| && r.sequence.None? && forall j :: 0 <= j < |rows| ==> rows[j].sequence == Some(j + 1)
    requires multiset(listing) == multiset(rows[i := r])
    requires InOrder(listing)
    ensures listing == rows[..i] + rows[i + 1..] + [r]
  {
    var moved := rows[..i] + rows[i + 1..] + [r];
    assert rows[i := r] == rows[..i] + [r] + rows[i + 1..];
    assert multiset(moved) == multiset(rows[..i]) + multiset(rows[i + 1..]) + multiset{r};
    NullSortsLast(rows, i, r);
    ListedAs(moved, listing);
  }

  /** Deleting one record of a chained log is noticed exactly when it is not the last:
      the verifier never looks at the head, so a shortened log is still accepted. */
  lemma RemovalAcceptedIffLast(d: Digester, table: seq<Row>, w: Uuid, own: seq<Event>, p: nat, listing: seq<Row>)
    requires Sound(d) && RowsOf(table, w) == Chained(d, own)
    requires p < |table| && table[p].event.fields.workspace == w
    requires Lists(table[..p] + table[p + 1..], w, listing)
    ensures Accepts(d, listing) <==> |RowsOf(table[..p], w)| == |own| - 1
  {
    RowsOfEdited(table, p, table[p], w);
    RemovedListing(d, own, |RowsOf(table[..p], w)|, listing);
  }

  lemma RemovedListing(d: Digester, own: seq<Event>, i: nat, listing: seq<Row>)
    requires Sound(d) && i < |own| && InOrder(listing)
    requires multiset(listing) == multiset(Chained(d, own)[..i] + Chained(d, own)[i + 1..])
    ensures Accepts(d, listing) <==> i == |own| - 1
  {
    var rows := Chained(d, own);
    RestListed(rows, i, listing);
    if i < |own| - 1 {
      assert listing[i] == rows[i + 1];
      assert Rejected(d, listing, i);
    } else {
      ChainedIsAccepted(d, own);
      assert listing == rows[..i];
      ShortenedIsAccepted(d, rows, i);
    }
  }

  lemma ShortenedIsAccepted(d: Digester, rows: seq<Row>, n: nat)
    requires Accepts(d, rows) && n <= |rows|
    ensures Accepts(d, rows[..n])
  {
    forall j | 0 <= j < n ensures !Rejected(d, rows[..n], j) {
      assert !Rejected(d, rows, j);
      SameFieldsSameFold(d, Events(rows[..n]), Events(rows), j);
      SameFieldsSameFold(d, Events(rows[..n]), Events(rows), j + 1);
    }
  }

  lemma RestListed(rows: seq<Row>, i: nat, listing: seq<Row>)
    requires i < |rows| && forall j :: 0 <= j < |rows| ==> rows[j].sequence == Some(j + 1)
    requires multiset(listing) == multiset(rows[..i] + rows[i + 1..])
    requires InOrder(listing)
    ensures listing == rows[..i] + rows[i + 1..]
  {
    var rest := rows[..i] + rows[i + 1..];
    forall j | 0 <= j < |listing| ensures listing[j] in rest {
      assert listing[j] in multiset(listing);
    }
    Sorting.SortedOnDistinctKeys(listing, rest, (r: Row) => r.sequence.GetOr(0));
  }

  // ----- The backfill -----

  ghost predicate ByWorkspace(items: seq<Event>) {
    forall i, j :: 0 <= i < j < |items| ==> items[i].fields.workspace <= items[j].fields.workspace
  }

  /** The loop variables stand for the head of the workspace being chained, which is the
      last one so far. */
  ghost predicate Running(heads: map<Uuid, Head>, items: seq<Event>, i: nat, prior: string, w: Option<Uuid>,
                          number: int)
    requires i <= |items|
  {
    if i == 0 then w == None && prior == "" && number == 0 && heads == map[]
    else w == Some(items[i - 1].fields.workspace) && w.value in heads && heads[w.value] == Head(number, prior, 0)
         && forall v :: v in heads ==> v <= w.value
  }

  /** The next row, numbered on from `number`, is the one the trigger would insert. */
  lemma BackfillStep(d: Digester, items: seq<Event>, i: nat, log: Log, prior: string, number: int)
    requires ByWorkspace(items) && i < |items| && log == InsertAll(d, EMPTY_LOG, items[..i])
    requires var w := items[i].fields.workspace;
             HeadOf(log, w) == Head(number, prior, 0) && forall v :: v in log.heads ==> v <= w
    ensures var w, after := items[i].fields.workspace, Insert(d, log, items[i]);
            && InsertAll(d, EMPTY_LOG, items[..i + 1]) == after
            && after.rows == log.rows + [NewRow(d, Head(number, prior, 0), items[i])]
            && Running(after.heads, items, i + 1, Compute(d, prior, number + 1, items[i].fields), Some(w), number + 1)
  {
    assert items[..i + 1][..i] == items[..i];
  }

  /** One pass over all workspaces that starts a new chain whenever the workspace changes,
      then one head per workspace from its highest row: the same rows and the same heads
      as inserting every event through the trigger. */
  method Backfill(d: Digester, items: seq<Event>) returns (rows: seq<Row>, heads: map<Uuid, Head>)
    requires ByWorkspace(items)
    ensures Log(rows, heads) == InsertAll(d, EMPTY_LOG, items)
  {
    var prior, priorWorkspace, number := "", None, 0;
    rows := [];
    for i := 0 to |items|
      invariant rows == InsertAll(d, EMPTY_LOG, items[..i]).rows && |rows| == i
      invariant Running(InsertAll(d, EMPTY_LOG, items[..i]).heads, items, i, prior, priorWorkspace, number)
    {
      var item := items[i];
      if priorWorkspace != Some(item.fields.workspace) {
        prior, number, priorWorkspace := "", 0, Some(item.fields.workspace);
      }
      BackfillStep(d, items, i, InsertAll(d, EMPTY_LOG, items[..i]), prior, number);
      number := number + 1;
      var computed := Compute(d, prior, number, item.fields);
      rows := rows + [Row(item, Some(number), NullIf(prior), Some(computed))];
      prior := computed;
    }
    assert items[..|items|] == items;
    heads := HighestHeads(d, items, rows);
  }

  /** `SELECT DISTINCT ON (workspace_id) ... ORDER BY workspace_id, chain_sequence DESC`. */
  method HighestHeads(d: Digester, ghost items: seq<Event>, rows: seq<Row>) returns (heads: map<Uuid, Head>)
    requires rows == InsertAll(d, EMPTY_LOG, items).rows
    ensures heads == InsertAll(d, EMPTY_LOG, items).heads
  {
    heads := map[];
    RowsInserted(d, items, |items|);
    assert items[..|items|] == items;
    for i := 0 to |rows|
      invariant heads == InsertAll(d, EMPTY_LOG, items[..i]).heads
    {
      RowsInserted(d, items, i);
      var w, sequence := rows[i].event.fields.workspace, rows[i].sequence.value;
      if w !in heads || heads[w].sequence < sequence {
        heads := heads[w := Head(sequence, rows[i].digest.value, 0)];
      }
    }
  }

  lemma {:induction false} RowsInserted(d: Digester, items: seq<Event>, i: nat)
    requires i <= |items|
    ensures |InsertAll(d, EMPTY_LOG, items[..i]).rows| == i
    ensures forall w :: w in InsertAll(d, EMPTY_LOG, items[..i]).heads ==>
            InsertAll(d, EMPTY_LOG, items[..i]).heads[w].verified == 0
    ensures var rows := InsertAll(d, EMPTY_LOG, items).rows;
            && |rows| == |items|
            && (i < |items| ==>
                  var before := InsertAll(d, EMPTY_LOG, items[..i]);
                  && rows[i] == NewRow(d, HeadOf(before, items[i].fields.workspace), items[i])
                  && InsertAll(d, EMPTY_LOG, items[..i + 1]) == Insert(d, before, items[i]))
  {
    if i < |items| {
      var shorter := items[..|items| - 1];
      RowsInserted(d, shorter, if i < |shorter| then i else |shorter|);
      if i < |shorter| {
        assert shorter[..i] == items[..i] && shorter[..i + 1] == items[..i + 1];
      } else {
        assert shorter[..|shorter|] == shorter && items[..i + 1] == items;
      }
    } else if items != [] {
      RowsInserted(d, items[..i - 1], i - 1);
      assert items[..i] == items && items[..i - 1][..i - 1] == items[..i - 1];
    }
  }
}
