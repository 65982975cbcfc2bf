/** Reservations: their lifecycle on values, and what holds of it over whole runs. */
module ReservationSpec {
  import opened Types
  import opened Capability

  type Ttl = t: nat | 0 < t <= MAX_RESERVATION_TTL witness 1

  /** A number of ticks that may be asked for: from 1 to 4096. */
  function TtlOf(ticks: u64): (ttl: Option<Ttl>)
    ensures ttl.Some? <==> 0 < ticks <= 4096
    ensures ttl.Some? ==> ttl.value == ticks
  {
    if ticks == 0 || ticks > MAX_RESERVATION_TTL then None else Some(ticks)
  }

  datatype Status = Active | Revoked | Expired | Consumed

  datatype Reservation = Reservation(
    id: u64,
    node: NodeId,
    action: Rights,
    generation: u64,
    originNonce: u64,
    createdAt: u64,
    ttl: Ttl,
    status: Status)
  {
    function ExpiresAt(): u64 {
      SaturatingAdd(createdAt, ttl)
    }

    predicate GrantableAt(now: u64) {
      status.Active? && now < ExpiresAt()
    }
  }

  datatype ExecutionGrant = ExecutionGrant(reservationId: u64, generation: u64, action: Rights, expiresAt: u64)

  datatype Store = Store(records: seq<Reservation>, nextId: u64)

  const EMPTY: Store := Store([], 0)

  // ---------- the operations ----------

  /** Position of the first record with the id. */
  function Find(records: seq<Reservation>, id: u64): (i: Option<nat>)
    ensures i.Some? ==> i.value < |records| && records[i.value].id == id
    ensures i.Some? ==> forall k :: 0 <= k < i.value ==> records[k].id != id
    ensures i.None? ==> forall k :: 0 <= k < |records| ==> records[k].id != id
  {
    if |records| == 0 then None
    else if records[0].id == id then Some(0)
    else
      var r := Find(records[1..], id);
      if r.None? then None else Some(r.value + 1)
  }

  function Lookup(s: Store, id: u64): Option<Reservation> {
    var i := Find(s.records, id);
    if i.None? then None else Some(s.records[i.value])
  }

  function Reserve(s: Store, node: NodeId, action: Rights, generation: u64, nonce: u64, ttl: Ttl,
        now: u64): (Store, Result<u64>)
  {
    if |s.records| >= MAX_RESERVATIONS then (s, Err(ReservationDenied("reservation capacity exhausted")))
    else
      (Store(s.records + [Reservation(s.nextId, node, action, generation, nonce, now, ttl, Active)],
        SaturatingAdd(s.nextId, 1)),
       Ok(s.nextId))
  }

  function EffectiveStatus(s: Store, id: u64, now: u64): Option<Status> {
    match Lookup(s, id)
    case None => None
    case Some(r) => Some(if r.status.Active? && now >= r.ExpiresAt() then Expired else r.status)
  }

  function WithStatus(s: Store, i: nat, status: Status): Store
    requires i < |s.records|
  {
    s.(records := s.records[i := s.records[i].(status := status)])
  }

  function Revoke(s: Store, id: u64): (Store, bool) {
    var i := Find(s.records, id);
    if i.Some? && s.records[i.value].status.Active? then (WithStatus(s, i.value, Revoked), true) else (s, false)
  }

  predicate Hit(r: Reservation, nonce: u64) {
    r.originNonce == nonce && r.status.Active?
  }

  function Cascaded(r: Reservation, nonce: u64): Reservation {
    if Hit(r, nonce) then r.(status := Revoked) else r
  }

  function Cascade(s: Store, nonce: u64): Store {
    s.(records := seq(|s.records|, i requires 0 <= i < |s.records| => Cascaded(s.records[i], nonce)))
  }

  /** The stored-active records with the nonce. */
  function Hits(records: seq<Reservation>, nonce: u64): set<nat> {
    set i: nat | i < |records| && Hit(records[i], nonce)
  }

  function Grant(s: Store, id: u64, now: u64): Result<ExecutionGrant> {
    match Lookup(s, id)
    case None => Err(ReservationDenied("reservation not active"))
    case Some(r) =>
      if !r.GrantableAt(now) then Err(ReservationDenied("reservation not active"))
      else Ok(ExecutionGrant(r.id, r.generation, r.action, r.ExpiresAt()))
  }

  function Consume(s: Store, id: u64, now: u64): (Store, Result<()>) {
    var i := Find(s.records, id);
    if i.None? || !s.records[i.value].GrantableAt(now) then (s, Err(ReservationDenied("reservation not active")))
    else (WithStatus(s, i.value, Consumed), Ok(()))
  }

  function Clear(s: Store): Store {
    s.(records := [])
  }

  // ---------- runs ----------

  datatype Call =
    | DoReserve(node: NodeId, action: Rights, generation: u64, nonce: u64, ttl: Ttl, now: u64)
    | DoRevoke(id: u64)
    | DoCascade(nonce: u64)
    | DoConsume(id: u64, now: u64)
    | DoClear

  function Next(s: Store, call: Call): Store {
    match call
    case DoReserve(node, action, generation, nonce, ttl, now) => Reserve(s, node, action, generation, nonce, ttl, now).0
    case DoRevoke(id) => Revoke(s, id).0
    case DoCascade(nonce) => Cascade(s, nonce)
    case DoConsume(id, now) => Consume(s, id, now).0
    case DoClear => Clear(s)
  }

  /** The ledger after the given calls, starting empty. */
  function After(calls: seq<Call>): Store {
    if |calls| == 0 then EMPTY else Next(After(calls[..|calls| - 1]), calls[|calls| - 1])
  }

  lemma AfterNext(calls: seq<Call>, i: nat)
    requires i < |calls|
    ensures After(calls[..i + 1]) == Next(After(calls[..i]), calls[i])
  {
    assert calls[..i + 1][..i] == calls[..i];
  }

  /** What every call keeps: capacity, no stored expiry, ids in the order they were given out and not repeated below
      the largest one. */
  ghost predicate Sound(s: Store) {
    && |s.records| <= MAX_RESERVATIONS
    && (forall i :: 0 <= i < |s.records| ==> !s.records[i].status.Expired?)
    && (forall i :: 0 <= i < |s.records| ==> s.records[i].id < s.nextId || s.nextId == U64_MAX)
    && (forall i, j :: 0 <= i < j < |s.records| ==> s.records[i].id < s.records[j].id || s.records[j].id == U64_MAX)
  }

  lemma NextSound(s: Store, call: Call)
    requires Sound(s)
    ensures Sound(Next(s, call)) && s.nextId <= Next(s, call).nextId
  {
  }

  lemma {:induction false} AfterSound(calls: seq<Call>)
    ensures Sound(After(calls))
  {
    if |calls| > 0 {
      AfterSound(calls[..|calls| - 1]);
      NextSound(After(calls[..|calls| - 1]), calls[|calls| - 1]);
    }
  }

  // ---------- the life of one reservation ----------

  /** A record stays as it is, or leaves Active for one of the two stored terminal states. */
  predicate Progress(a: Reservation, b: Reservation) {
    b == a || (a.status.Active? && (b == a.(status := Revoked) || b == a.(status := Consumed)))
  }

  /** Seen from one moment to a later one: an issued id is not issued again, and its record only progresses. */
  ghost predicate Fate(before: Option<Reservation>, after: Option<Reservation>) {
    match after
    case None => true
    case Some(b) => before.Some? && Progress(before.value, b)
  }

  /** Two lists agree on ids and progress record by record. */
  ghost predicate Pointwise(a: seq<Reservation>, b: seq<Reservation>) {
    |a| == |b| && forall i :: 0 <= i < |a| ==> Progress(a[i], b[i])
  }

  lemma PointwiseFate(a: Store, b: Store, id: u64)
    requires Pointwise(a.records, b.records)
    ensures Fate(Lookup(a, id), Lookup(b, id))
  {
    var i, j := Find(a.records, id), Find(b.records, id);
    if j.Some? {
      assert Progress(a.records[j.value], b.records[j.value]);
      assert a.records[j.value].id == id;
      assert i.value <= j.value;
      assert Progress(a.records[i.value], b.records[i.value]);
    }
  }

  lemma AppendFate(s: Store, r: Reservation, nextId: u64, id: u64)
    requires r.id != id
    ensures Lookup(Store(s.records + [r], nextId), id) == Lookup(s, id)
  {
    var longer := s.records + [r];
    var i, j := Find(s.records, id), Find(longer, id);
    if i.Some? {
      assert longer[i.value].id == id;
    }
    if j.Some? {
      assert s.records[j.value].id == id;
    }
  }

  lemma NextFate(s: Store, call: Call, id: u64)
    requires !(call.DoReserve? && |s.records| < MAX_RESERVATIONS && s.nextId == id)
    ensures Fate(Lookup(s, id), Lookup(Next(s, call), id))
  {
    match call
    case DoReserve(node, action, generation, nonce, ttl, now) =>
      var s' := Next(s, call);
      if |s'.records| > |s.records| {
        AppendFate(s, s'.records[|s.records|], s'.nextId, id);
      }
    case DoClear =>
    case DoRevoke(_) => PointwiseFate(s, Next(s, call), id);
    case DoCascade(_) => PointwiseFate(s, Next(s, call), id);
    case DoConsume(_, _) => PointwiseFate(s, Next(s, call), id);
  }

  lemma FateTransitive(a: Option<Reservation>, b: Option<Reservation>, c: Option<Reservation>)
    requires Fate(a, b) && Fate(b, c)
    ensures Fate(a, c)
  {
  }

  /** Call `i` opens a reservation. */
  predicate Opens(calls: seq<Call>, i: nat)
    requires i < |calls|
  {
    calls[i].DoReserve? && |After(calls[..i]).records| < MAX_RESERVATIONS
  }

  function OpenedId(calls: seq<Call>, i: nat): u64
    requires i < |calls|
  {
    After(calls[..i]).nextId
  }

  /** Call `k` gives out `id`. */
  predicate OpensAs(calls: seq<Call>, k: nat, id: u64)
    requires k < |calls|
  {
    Opens(calls, k) && OpenedId(calls, k) == id
  }

  /** From moment `i` on, `id` is not given out. */
  ghost predicate NotOpenedFrom(calls: seq<Call>, i: nat, id: u64) {
    forall k {:trigger OpensAs(calls, k, id)} :: i <= k < |calls| ==> !OpensAs(calls, k, id)
  }

  lemma LifeStep(calls: seq<Call>, i: nat, j: nat, id: u64)
    requires i <= j < |calls| && Fate(Lookup(After(calls[..i]), id), Lookup(After(calls[..j]), id))
    requires NotOpenedFrom(calls, i, id)
    ensures Fate(Lookup(After(calls[..i]), id), Lookup(After(calls[..j + 1]), id))
  {
    assert !OpensAs(calls, j, id);
    NextFate(After(calls[..j]), calls[j], id);
    AfterNext(calls, j);
    FateTransitive(Lookup(After(calls[..i]), id), Lookup(After(calls[..j]), id), Lookup(After(calls[..j + 1]), id));
  }

  /** From a moment on after which an id is not given out again, it is gone for good or its record only progresses. */
  lemma {:induction false} LifeOf(calls: seq<Call>, i: nat, j: nat, id: u64)
    requires i <= j <= |calls| && NotOpenedFrom(calls, i, id)
    ensures Fate(Lookup(After(calls[..i]), id), Lookup(After(calls[..j]), id))
    decreases j
  {
    if i < j {
      LifeOf(calls, i, j - 1, id);
      LifeStep(calls, i, j - 1, id);
    }
  }

  /** Revoked and Consumed are never left: while the record is stored it does not change at all. */
  lemma TerminalForGood(calls: seq<Call>, i: nat, j: nat, id: u64)
    requires i <= j <= |calls| && NotOpenedFrom(calls, i, id)
    requires var r := Lookup(After(calls[..i]), id); r.Some? && !r.value.status.Active?
    ensures Lookup(After(calls[..j]), id) in {None, Lookup(After(calls[..i]), id)}
  {
    LifeOf(calls, i, j, id);
  }

  // ---------- granting ----------

  /** A grant is given exactly when the effective status is Active, and so is a consumption. */
  lemma GrantIff(s: Store, id: u64, now: u64)
    ensures Grant(s, id, now).Ok? <==> EffectiveStatus(s, id, now) == Some(Active)
    ensures Consume(s, id, now).1.Ok? <==> EffectiveStatus(s, id, now) == Some(Active)
    ensures Grant(s, id, now).Ok? ==>
      Grant(s, id, now).value.reservationId == id && now < Grant(s, id, now).value.expiresAt
  {
  }

  /** An id that will not be given out again and cannot be granted at some time cannot be granted or consumed at
      any later time, whatever calls come in between. */
  lemma UngrantableForGood(calls: seq<Call>, i: nat, j: nat, id: u64, now: u64, later: u64)
    requires i <= j <= |calls| && NotOpenedFrom(calls, i, id) && now <= later
    requires Grant(After(calls[..i]), id, now).Err?
    ensures Grant(After(calls[..j]), id, later).Err? && Consume(After(calls[..j]), id, later).1.Err?
  {
    LifeOf(calls, i, j, id);
    GrantIff(After(calls[..j]), id, later);
  }

  // ---------- ids ----------

  lemma NextIdStep(s: Store, call: Call)
    ensures s.nextId <= Next(s, call).nextId
  {
  }

  lemma {:induction false} NextIdGrows(calls: seq<Call>, i: nat, j: nat)
    requires i <= j <= |calls|
    ensures After(calls[..i]).nextId <= After(calls[..j]).nextId
    decreases j
  {
    if i < j {
      NextIdGrows(calls, i, j - 1);
      NextIdStep(After(calls[..j - 1]), calls[j - 1]);
      AfterNext(calls, j - 1);
    }
  }

  /** Two reservations of one run have different ids, unless both have the largest one. */
  lemma IdsDiffer(calls: seq<Call>, i: nat, j: nat)
    requires i < j < |calls| && Opens(calls, i) && Opens(calls, j)
    ensures OpenedId(calls, i) < OpenedId(calls, j) || OpenedId(calls, i) == OpenedId(calls, j) == U64_MAX
  {
    AfterNext(calls, i);
    NextIdGrows(calls, i + 1, j);
  }

  /** Call `i` consumes reservation `id`. */
  predicate Consumes(calls: seq<Call>, i: nat, id: u64)
    requires i < |calls|
  {
    calls[i].DoConsume? && calls[i].id == id && Consume(After(calls[..i]), id, calls[i].now).1.Ok?
  }

  lemma ConsumeMarks(s: Store, id: u64, now: u64)
    requires Consume(s, id, now).1.Ok?
    ensures var r := Lookup(Consume(s, id, now).0, id); r.Some? && r.value.status.Consumed?
  {
    var i := Find(s.records, id);
    var s' := Consume(s, id, now).0;
    var j := Find(s'.records, id);
    assert s'.records[i.value].id == id;
  }

  lemma ConsumedTwice(calls: seq<Call>, i: nat, j: nat, id: u64)
    requires i < j < |calls| && Consumes(calls, i, id) && Consumes(calls, j, id)
    ensures !NotOpenedFrom(calls, i, id)
  {
    if NotOpenedFrom(calls, i, id) {
      ConsumeMarks(After(calls[..i]), id, calls[i].now);
      AfterNext(calls, i);
      TerminalForGood(calls, i + 1, j, id);
    }
  }

  // ---------- exactly when ids are given out once and consumed once ----------

  function Opened(calls: seq<Call>): nat {
    if |calls| == 0 then 0
    else Opened(calls[..|calls| - 1]) + if Opens(calls, |calls| - 1) then 1 else 0
  }

  /** The next id counts the reservations opened, up to the largest one. */
  lemma {:induction false} NextIdCounts(calls: seq<Call>)
    ensures After(calls).nextId == if Opened(calls) <= U64_MAX then Opened(calls) else U64_MAX
  {
    if |calls| > 0 {
      NextIdCounts(calls[..|calls| - 1]);
    }
  }

  ghost predicate UniqueIds(calls: seq<Call>) {
    forall i, j :: (0 <= i < j < |calls| && Opens(calls, i) && Opens(calls, j)) ==>
      OpenedId(calls, i) != OpenedId(calls, j)
  }

  lemma {:induction false} OpenedGrows(calls: seq<Call>, i: nat)
    requires i <= |calls|
    ensures Opened(calls[..i]) <= Opened(calls)
    ensures i < |calls| && Opens(calls, i) ==> Opened(calls[..i]) < Opened(calls)
    decreases |calls|
  {
    if i < |calls| {
      var rest := calls[..|calls| - 1];
      assert rest[..i] == calls[..i];
      if i < |rest| {
        assert Opens(calls, i) == Opens(rest, i);
      }
      OpenedGrows(rest, i);
    } else {
      assert calls[..i] == calls;
    }
  }

  lemma {:induction false} IdsBelowOpened(calls: seq<Call>, id: u64)
    requires Lookup(After(calls), id).Some?
    ensures id < Opened(calls)
  {
    var before, call := calls[..|calls| - 1], calls[|calls| - 1];
    if Opens(calls, |calls| - 1) && After(before).nextId == id {
      NextIdCounts(before);
    } else {
      NextFate(After(before), call, id);
      IdsBelowOpened(before, id);
    }
  }

  /** With enough ids for the whole run, an id given out before moment `i` is not given out from then on. */
  lemma GivenOutOnce(calls: seq<Call>, i: nat, id: u64)
    requires i <= |calls| && id < Opened(calls[..i]) && Opened(calls) <= U64_MAX + 1
    ensures NotOpenedFrom(calls, i, id)
  {
    forall k | i <= k < |calls|
      ensures !OpensAs(calls, k, id)
    {
      assert calls[..k][..i] == calls[..i];
      OpenedGrows(calls[..k], i);
      OpenedGrows(calls, k);
      NextIdCounts(calls[..k]);
    }
  }

  ghost predicate OnceConsumed(calls: seq<Call>) {
    forall i, j, id :: (0 <= i < j < |calls| && Consumes(calls, i, id)) ==> !Consumes(calls, j, id)
  }

  lemma FewAreUnique(calls: seq<Call>)
    requires Opened(calls) <= U64_MAX + 1
    ensures UniqueIds(calls) && OnceConsumed(calls)
  {
    forall i, j | 0 <= i < j < |calls| && Opens(calls, i) && Opens(calls, j)
      ensures OpenedId(calls, i) != OpenedId(calls, j)
    {
      NextIdCounts(calls[..i]);
      OpenedGrows(calls, i);
      OpenedStep(calls, i);
      GivenOutOnce(calls, i + 1, OpenedId(calls, i));
      assert !OpensAs(calls, j, OpenedId(calls, i));
    }
    forall i, j, id | 0 <= i < j < |calls| && Consumes(calls, i, id)
      ensures !Consumes(calls, j, id)
    {
      if Consumes(calls, j, id) {
        IdsBelowOpened(calls[..i], id);
        GivenOutOnce(calls, i, id);
        ConsumedTwice(calls, i, j, id);
      }
    }
  }

  lemma OpenedStep(calls: seq<Call>, i: nat)
    requires i < |calls|
    ensures Opened(calls[..i + 1]) == Opened(calls[..i]) + if Opens(calls, i) then 1 else 0
  {
    assert calls[..i + 1][..i] == calls[..i];
  }

  const OPEN: Call := DoReserve(1, 0, 0, 0, 1, 0)

  /** `n` reservations, each followed by a clear. */
  function Cycles(n: nat): seq<Call> {
    if n == 0 then [] else Cycles(n - 1) + [OPEN] + [DoClear]
  }

  lemma AfterAppend(calls: seq<Call>, call: Call)
    ensures After(calls + [call]) == Next(After(calls), call)
    ensures Opened(calls + [call]) == Opened(calls)
      + if call.DoReserve? && |After(calls).records| < MAX_RESERVATIONS then 1 else 0
    ensures (calls + [call])[..|calls|] == calls
  {
  }

  lemma {:induction false} CyclesState(n: nat)
    ensures After(Cycles(n)).records == [] && Opened(Cycles(n)) == n
  {
    if n > 0 {
      CyclesState(n - 1);
      AfterAppend(Cycles(n - 1), OPEN);
      AfterAppend(Cycles(n - 1) + [OPEN], DoClear);
    }
  }

  const TAKE: Call := DoConsume(U64_MAX, 0)

  lemma AtMaximum(s: Store)
    requires s.records == [] && s.nextId == U64_MAX
    ensures var s1 := Next(s, OPEN); |s1.records| == 1 && s1.nextId == U64_MAX && Consume(s1, U64_MAX, 0).1.Ok?
    ensures var s3 := Next(Next(Next(s, OPEN), TAKE), DoClear); s3.records == [] && s3.nextId == U64_MAX
  {
  }

  lemma ManyRepeat(n: nat) returns (calls: seq<Call>)
    requires n > U64_MAX + 1
    ensures Opened(calls) == n && !UniqueIds(calls) && !OnceConsumed(calls)
  {
    var fill := UsedUp(n - 2);
    calls := RepeatAfter(fill);
  }

  lemma UsedUp(n: nat) returns (fill: seq<Call>)
    requires n >= U64_MAX
    ensures Opened(fill) == n && After(fill).records == [] && After(fill).nextId == U64_MAX
  {
    fill := Cycles(n);
    CyclesState(n);
    NextIdCounts(fill);
  }

  lemma RepeatAfter(fill: seq<Call>) returns (calls: seq<Call>)
    requires After(fill).records == [] && After(fill).nextId == U64_MAX
    ensures Opened(calls) == Opened(fill) + 2 && !UniqueIds(calls) && !OnceConsumed(calls)
  {
    var tail := [OPEN, TAKE, DoClear, OPEN, TAKE];
    calls := fill + tail;
    Halves(fill, tail);
    RepeatsAt(calls, |fill|);
  }

  lemma Halves(a: seq<Call>, b: seq<Call>)
    ensures (a + b)[..|a|] == a && (a + b)[|a|..] == b && (a + b)[..|a| + |b|] == a + b
  {
  }

  lemma RepeatsAt(calls: seq<Call>, k: nat)
    requires |calls| == k + 5 && calls[k..] == [OPEN, TAKE, DoClear, OPEN, TAKE]
    requires After(calls[..k]).nextId == U64_MAX && After(calls[..k]).records == []
    ensures !UniqueIds(calls) && !OnceConsumed(calls) && Opened(calls[..k + 5]) == Opened(calls[..k]) + 2
  {
    assert calls[k] == calls[k..][0] && calls[k + 1] == calls[k..][1] && calls[k + 2] == calls[k..][2];
    assert calls[k + 3] == calls[k..][3] && calls[k + 4] == calls[k..][4];
    OpensTwice(calls, k);
    assert OpenedId(calls, k) == OpenedId(calls, k + 3);
  }

  lemma OpensTwice(calls: seq<Call>, k: nat)
    requires |calls| == k + 5 && calls[k] == OPEN && calls[k + 1] == TAKE && calls[k + 2] == DoClear
    requires calls[k + 3] == OPEN && calls[k + 4] == TAKE
    requires After(calls[..k]).nextId == U64_MAX && After(calls[..k]).records == []
    ensures Opens(calls, k) && Opens(calls, k + 3) && After(calls[..k + 3]).nextId == U64_MAX
    ensures Consumes(calls, k + 1, U64_MAX) && Consumes(calls, k + 4, U64_MAX)
    ensures Opened(calls[..k + 5]) == Opened(calls[..k]) + 2
  {
    AtMaximum(After(calls[..k]));
    AfterNext(calls, k);
    AfterNext(calls, k + 1);
    AfterNext(calls, k + 2);
    AtMaximum(After(calls[..k + 3]));
    AfterNext(calls, k + 3);
    OpenedStep(calls, k);
    OpenedStep(calls, k + 1);
    OpenedStep(calls, k + 2);
    OpenedStep(calls, k + 3);
    OpenedStep(calls, k + 4);
  }

  /** Every run that opens `n` reservations gives them different ids if and only if there are enough ids, and every
      such run consumes each at most once under the same condition. */
  lemma ReservationsSafeIff(n: nat)
    ensures (forall calls :: Opened(calls) == n ==> UniqueIds(calls)) <==> n <= U64_MAX + 1
    ensures (forall calls :: Opened(calls) == n ==> OnceConsumed(calls)) <==> n <= U64_MAX + 1
  {
    if n <= U64_MAX + 1 {
      forall calls | Opened(calls) == n
        ensures UniqueIds(calls) && OnceConsumed(calls)
      {
        FewAreUnique(calls);
      }
    } else {
      var calls := ManyRepeat(n);
    }
  }

  // ---------- the cascade ----------

  /** None of the records that a cascade reached is ever granted or consumed again. */
  lemma CascadeForGood(calls: seq<Call>, i: nat, j: nat, id: u64, now: u64)
    requires i < j <= |calls| && calls[i].DoCascade? && NotOpenedFrom(calls, i, id)
    requires var r := Lookup(After(calls[..i]), id); r.Some? && Hit(r.value, calls[i].nonce)
    ensures Grant(After(calls[..j]), id, now).Err? && Consume(After(calls[..j]), id, now).1.Err?
  {
    var s := After(calls[..i]);
    AfterNext(calls, i);
    CascadeLookup(s, calls[i].nonce, id);
    TerminalForGood(calls, i + 1, j, id);
    GrantIff(After(calls[..j]), id, now);
  }

  lemma CascadeLookup(s: Store, nonce: u64, id: u64)
    requires Lookup(s, id).Some?
    ensures Lookup(Cascade(s, nonce), id) == Some(Cascaded(Lookup(s, id).value, nonce))
  {
    var s' := Cascade(s, nonce);
    var i, j := Find(s.records, id), Find(s'.records, id);
    assert s'.records[i.value].id == id;
    assert s.records[j.value].id == id;
  }
}
