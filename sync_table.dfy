/**
 * The per-client bookkeeping of the clock server: a table from client address
 * to its latest acknowledged sample, a throttled purge of stale samples, and
 * the offsetMax aggregate over the samples that survive the purge.
 */
module SyncTable {
  import opened ClockTime

  /** One client's latest sample: when it arrived, its clock offset and its round-trip time. */
  datatype Entry = Entry(time: int, offset: Duration, rtt: Duration)

  type Table = map<string, Entry>

  /** The result of one offsetMax pass: a value in microseconds, or usecInvalid. */
  datatype Aggregate = MaxUsec(usec: int) | UsecInvalid

  /** The bookkeeping part of the server: the log_ flag, ackData_ and tRecalculated_. */
  datatype Sync = Sync(log: bool, table: Table, tRecalculated: int)

  predicate Healthy(e: Entry) {
    e.offset.Dur? && e.rtt.Dur?
  }

  /** A sample's contribution to offsetMax: |offset| + rtt/2, with C++ truncation. */
  function Candidate(e: Entry): int
    requires Healthy(e)
  {
    Abs(e.offset.usec) + HalfTowardZero(e.rtt.usec)
  }

  ghost predicate AnyInvalid(t: Table) {
    exists k :: k in t && !Healthy(t[k])
  }

  /**
   * `a` is what one offsetMax pass over `t` reports: usecInvalid exactly when
   * some entry has an invalid offset or rtt; otherwise the largest of 0 and
   * every entry's candidate.
   */
  ghost predicate IsOffsetMax(t: Table, a: Aggregate) {
    match a
    case UsecInvalid => AnyInvalid(t)
    case MaxUsec(m) =>
      && (forall k :: k in t ==> Healthy(t[k]) && Candidate(t[k]) <= m)
      && m >= 0
      && (m == 0 || exists k :: k in t && Candidate(t[k]) == m)
  }

  /** The offsetMax of a table, defined independently of any iteration order. */
  ghost function OffsetMaxOf(t: Table): (a: Aggregate)
    ensures IsOffsetMax(t, a)
    decreases |t|
  {
    if |t| == 0 then MaxUsec(0)
    else
      var k :| k in t;
      var rest := t - {k};
      assert |rest| < |t| by { assert rest.Keys == t.Keys - {k}; }
      var sub := OffsetMaxOf(rest);
      if !Healthy(t[k]) then UsecInvalid
      else if sub.UsecInvalid? then
        assert exists j :: j in rest && !Healthy(rest[j]);
        UsecInvalid
      else
        assert forall j :: j in t ==> j == k || j in rest;
        MaxUsec(if Candidate(t[k]) > sub.usec then Candidate(t[k]) else sub.usec)
  }

  /** The pass's report is determined by the table alone. */
  lemma OffsetMaxUnique(t: Table, a: Aggregate, b: Aggregate)
    requires IsOffsetMax(t, a) && IsOffsetMax(t, b)
    ensures a == b
  {
    if a.MaxUsec? && b.MaxUsec? {
      if a.usec != 0 {
        var k :| k in t && Candidate(t[k]) == a.usec;
        assert a.usec <= b.usec;
      }
      if b.usec != 0 {
        var k :| k in t && Candidate(t[k]) == b.usec;
        assert b.usec <= a.usec;
      }
    }
  }

  /** One invalid sample makes the whole pass invalid, whatever the other samples hold. */
  lemma InvalidDominates(t: Table, addr: string)
    requires addr in t && !Healthy(t[addr])
    ensures OffsetMaxOf(t) == UsecInvalid
  {
  }

  /** Samples {offset 100, rtt 40} and {offset -300, rtt 20} give max(100 + 20, 300 + 10) = 310. */
  lemma OffsetMaxExample(t0: int, t1: int)
    ensures OffsetMaxOf(map["A" := Entry(t0, Dur(100), Dur(40)), "B" := Entry(t1, Dur(-300), Dur(20))]) == MaxUsec(310)
  {
    var t := map["A" := Entry(t0, Dur(100), Dur(40)), "B" := Entry(t1, Dur(-300), Dur(20))];
    assert Candidate(t["A"]) == 120;
    assert Candidate(t["B"]) == 310;
    OffsetMaxUnique(t, OffsetMaxOf(t), MaxUsec(310));
  }

  /** std::erase_if with `entry.time < tPurge`: keep exactly the entries seen at or after tPurge. */
  function Purge(t: Table, tPurge: int): (r: Table)
    ensures forall k :: k in r ==> k in t && r[k] == t[k] && r[k].time >= tPurge
    ensures forall k :: k in t && t[k].time >= tPurge ==> k in r
  {
    map k | k in t && t[k].time >= tPurge :: t[k]
  }

  /** True when an ACK at `now` passes the throttle and triggers purge and recompute. */
  predicate Recomputes(s: Sync, now: int) {
    s.log && !(now < s.tRecalculated + RecomputeInterval)
  }

  /**
   * The effect of updateEntry on the bookkeeping: with logging off nothing
   * changes; otherwise the sender's entry is overwritten, and when the
   * throttle allows, stale entries are purged and tRecalculated_ is reset.
   */
  function Record(s: Sync, addr: string, offset: Duration, rtt: Duration, now: int): (r: Sync)
    ensures r.log == s.log
    ensures !s.log ==> r == s
    ensures s.log ==> addr in r.table && r.table[addr] == Entry(now, offset, rtt)
    ensures forall k :: k in r.table && k != addr ==> k in s.table && r.table[k] == s.table[k]
    ensures s.log && !Recomputes(s, now) ==>
      && r.tRecalculated == s.tRecalculated
      && r.table.Keys == s.table.Keys + {addr}
    ensures Recomputes(s, now) ==>
      && r.tRecalculated == now
      && (forall k :: k in r.table ==> r.table[k].time >= now - PurgeWindow)
      && (forall k :: k in s.table && s.table[k].time >= now - PurgeWindow ==> k in r.table)
  {
    if !s.log then s
    else
      var written := s.table[addr := Entry(now, offset, rtt)];
      if now < s.tRecalculated + RecomputeInterval then s.(table := written)
      else Sync(s.log, Purge(written, now - PurgeWindow), now)
  }

  /** What updateEntry reports: the offsetMax of the purged table when it recomputes, else nothing. */
  ghost function Report(s: Sync, addr: string, offset: Duration, rtt: Duration, now: int): Option<Aggregate> {
    if Recomputes(s, now) then Some(OffsetMaxOf(Record(s, addr, offset, rtt, now).table)) else None
  }

  /** Two ACKs from one address leave only the second sample; nothing accumulates. */
  lemma LatestWins(s: Sync, addr: string, o1: Duration, r1: Duration, n1: int, o2: Duration, r2: Duration, n2: int)
    requires s.log
    ensures Record(Record(s, addr, o1, r1, n1), addr, o2, r2, n2).table[addr] == Entry(n2, o2, r2)
  {
  }

  /** Of two ACKs less than 500 ms apart, at most one triggers a recompute. */
  lemma AtMostOneRecompute(s: Sync, a1: string, o1: Duration, r1: Duration, now1: int,
                           a2: string, o2: Duration, r2: Duration, now2: int)
    requires now2 < now1 + RecomputeInterval
    ensures !(Recomputes(s, now1) && Recomputes(Record(s, a1, o1, r1, now1), now2))
  {
  }

  /**
   * The aggregate loop of updateEntry: walks the table, stops at the first
   * entry with an invalid offset or rtt, and otherwise keeps the running
   * maximum of 0 and |offset| + rtt/2.
   */
  method ComputeOffsetMax(t: Table) returns (offsetMax: Aggregate)
    ensures IsOffsetMax(t, offsetMax)
    ensures offsetMax == OffsetMaxOf(t)
  {
    offsetMax := MaxUsec(0);
    var rest := t.Keys;
    while rest != {}
      invariant rest <= t.Keys
      invariant offsetMax.MaxUsec? && offsetMax.usec >= 0
      invariant forall k :: k in t && k !in rest ==> Healthy(t[k]) && Candidate(t[k]) <= offsetMax.usec
      invariant offsetMax.usec == 0 || exists k :: k in t && Healthy(t[k]) && Candidate(t[k]) == offsetMax.usec
      decreases rest
    {
      var k :| k in rest;
      var entry := t[k];
      if !Healthy(entry) {
        offsetMax := UsecInvalid;
        break;
      }
      var c := Candidate(entry);
      offsetMax := MaxUsec(if offsetMax.usec > c then offsetMax.usec else c);
      rest := rest - {k};
    }
    OffsetMaxUnique(t, offsetMax, OffsetMaxOf(t));
  }
}
