/** Fenced object storage of one tenant, and the jobs that write to it. */
module FencedStorage {
  import opened Wrappers

  type RecordId = nat
  type Nonce = nat
  type Value = nat

  datatype Key = RecordKey(id: RecordId) | SharedKey

  /** Stored bytes, with the record they were written for. */
  datatype Content = Content(record: RecordId, value: Value)

  /** A missing content is a tombstone. */
  datatype Envelope = Envelope(nonce: Nonce, content: Option<Content>)

  datatype Job = Project(id: RecordId, value: Value) | Cleanup(id: RecordId)

  /**
   Conditional puts follow If-Match and If-None-Match (RFC 9110, sections 13.1.1
   and 13.1.2): a put lands only while the object still has the version its writer
   read. A cancelled writer's put may stay in flight and land long after. Each
   envelope carries a nonce nobody else uses, so versions are nonces.
   */
  datatype Put = Put(key: Key, expected: Option<Nonce>, content: Option<Content>, writer: Job)

  /** landed remembers every nonce that was ever current. */
  datatype Store = Store(objects: map<Key, Envelope>, inFlight: map<Nonce, Put>, landed: set<Nonce>, next: Nonce)

  // ---- The store ----

  function Version(store: Store, key: Key): Option<Nonce> {
    if key in store.objects then Some(store.objects[key].nonce) else None
  }

  function Issue(store: Store, put: Put): Store {
    store.(inFlight := store.inFlight[store.next := put], next := store.next + 1)
  }

  /** Whether the put's precondition holds now. */
  predicate Matches(store: Store, put: Put) {
    Version(store, put.key) == put.expected
  }

  function Land(store: Store, n: Nonce): Store
    requires n in store.inFlight
  {
    var put := store.inFlight[n];
    if Matches(store, put) then
      store.(objects := store.objects[put.key := Envelope(n, put.content)],
             inFlight := store.inFlight - {n}, landed := store.landed + {n})
    else store.(inFlight := store.inFlight - {n})
  }

  /** Versions that were read have landed; puts still in flight have not. */
  ghost predicate StoreInv(store: Store) {
    && (forall n :: n in store.landed ==> n < store.next)
    && (forall k :: k in store.objects ==> store.objects[k].nonce in store.landed)
    && (forall n :: n in store.inFlight ==>
          && n < store.next && n !in store.landed
          && (store.inFlight[n].expected.Some? ==> store.inFlight[n].expected.value in store.landed))
  }

  lemma IssueKeepsStore(store: Store, put: Put)
    requires StoreInv(store) && (put.expected.Some? ==> put.expected.value in store.landed)
    ensures StoreInv(Issue(store, put))
  {
  }

  lemma LandKeepsStore(store: Store, n: Nonce)
    requires StoreInv(store) && n in store.inFlight
    ensures StoreInv(Land(store, n))
  {
  }

  /** Once a put lands, no other put in flight on its key matches any more. */
  lemma LandingOutdatesOthers(store: Store, n: Nonce, other: Nonce)
    requires StoreInv(store) && n in store.inFlight && Matches(store, store.inFlight[n])
    requires other in Land(store, n).inFlight && store.inFlight[other].key == store.inFlight[n].key
    ensures !Matches(Land(store, n), Land(store, n).inFlight[other])
  {
  }

  /** A put that does not match never will: versions do not come back, and objects are never removed. */
  ghost predicate Outdated(store: Store, n: Nonce) {
    n !in store.inFlight || (store.inFlight[n].key in store.objects && !Matches(store, store.inFlight[n]))
  }

  lemma OutdatedStaysOutdated(store: Store, n: Nonce, m: Nonce)
    requires StoreInv(store) && Outdated(store, n) && m in store.inFlight
    ensures Outdated(Land(store, m), n)
  {
  }

  // ---- Records, and the jobs that write for them ----

  datatype Lifecycle = Current | Archived | Anonymized | Purged

  datatype Record = Record(value: Value, createdAt: nat, lifecycle: Lifecycle)

  /** How far a reconciliation of one key has got. */
  datatype Attempt = Unread | Read(version: Option<Nonce>) | Waiting(nonce: Nonce)

  datatype Stage =
    | Entered
    | Writing(key: Key, content: Option<Content>, attempt: Attempt)
    | BetweenKeys
    | Finished

  /** The job that holds the tenant's advisory lock. */
  datatype Task = Task(job: Job, stage: Stage)

  /**
   A worker whose database session, and with it the lock, is gone, and that has not
   noticed: until its reconciliation ends it asks the object store alone. It waits for
   one put at a time, and its reconciliation ends when that put lands.
   */
  datatype Stray = Stray(job: Job, key: Key, content: Option<Content>, waiting: Option<Nonce>)

  type StrayId = nat

  datatype State = State(
    store: Store, records: map<RecordId, Record>, task: Option<Task>, strays: map<StrayId, Stray>)

  datatype Step =
    | StoreRecord(id: RecordId, value: Value, createdAt: nat)
    | Destroy(id: RecordId, to: Lifecycle)       // the owner operation's own transaction
    | Acquire(job: Job)                          // the advisory lock
    | CheckRecord                                // the row update, or cleanup's lifecycle test
    | ReadVersion
    | SendPut
    | LandPut(nonce: Nonce)                      // any put in flight, whoever sent it
    | QueryLatest(latest: Option<RecordId>)
    | Leave                                      // done, failed, cancelled or crashed
    | LoseLock(w: StrayId)                       // the session drops under a live writer
    | StraySend(w: StrayId, version: Option<Nonce>)   // a version it has read at some time
    | StrayEnds(w: StrayId)                      // failed, cancelled or crashed

  function Init(): State {
    State(Store(map[], map[], {}, 0), map[], None, map[])
  }

  predicate IsCurrent(records: map<RecordId, Record>, id: RecordId) {
    id in records && records[id].lifecycle.Current?
  }

  predicate Gone(records: map<RecordId, Record>, id: RecordId) {
    id in records && !records[id].lifecycle.Current?
  }

  predicate NewerOrSame(records: map<RecordId, Record>, a: RecordId, b: RecordId)
    requires a in records && b in records
  {
    records[a].createdAt > records[b].createdAt || (records[a].createdAt == records[b].createdAt && a >= b)
  }

  /** The newest current record, if there is one. */
  predicate IsLatest(records: map<RecordId, Record>, latest: Option<RecordId>) {
    match latest
    case None => forall id :: id in records ==> !records[id].lifecycle.Current?
    case Some(best) =>
      IsCurrent(records, best)
      && forall id :: id in records && records[id].lifecycle.Current? ==> NewerOrSame(records, best, id)
  }

  /** The projection's row update locks its row until its transaction ends. */
  predicate RowLocked(s: State, id: RecordId) {
    s.task.Some? && s.task.value.job.Project? && s.task.value.job.id == id && !s.task.value.stage.Entered?
  }

  function SetTask(s: State, stage: Stage): State
    requires s.task.Some?
  {
    s.(task := Some(s.task.value.(stage := stage)))
  }

  function AfterCheck(s: State, job: Job): State
    requires s.task.Some?
  {
    match job
    case Project(id, value) =>
      if IsCurrent(s.records, id) then SetTask(s, Writing(RecordKey(id), Some(Content(id, value)), Unread))
      else s.(task := None)
    case Cleanup(id) =>
      if Gone(s.records, id) && !s.records[id].lifecycle.Archived? then SetTask(s, Writing(RecordKey(id), None, Unread))
      else s.(task := None)
  }

  predicate Owns(s: State, n: Nonce) {
    s.task.Some? && s.task.value.stage.Writing? && s.task.value.stage.attempt == Waiting(n)
  }

  /** A stray whose put landed is done; one whose put was refused reads the version again. */
  function AfterAnswer(strays: map<StrayId, Stray>, n: Nonce, landed: bool): (r: map<StrayId, Stray>)
    ensures forall w :: w in r <==> w in strays && !(landed && strays[w].waiting == Some(n))
    ensures forall w :: w in r ==>
      r[w] == if strays[w].waiting == Some(n) then strays[w].(waiting := None) else strays[w]
  {
    map w | w in strays && !(landed && strays[w].waiting == Some(n)) ::
      if strays[w].waiting == Some(n) then strays[w].(waiting := None) else strays[w]
  }

  /** A live writer goes on to its next key, or reads the version again. */
  function AfterLanding(s: State, n: Nonce): State
    requires n in s.store.inFlight
  {
    var put := s.store.inFlight[n];
    var landed := Matches(s.store, put);
    var t := s.(store := Land(s.store, n), strays := AfterAnswer(s.strays, n, landed));
    if !Owns(s, n) then t
    else if !landed then SetTask(t, s.task.value.stage.(attempt := Unread))
    else SetTask(t, if s.task.value.stage.key.SharedKey? then Finished else BetweenKeys)
  }

  function AfterQuery(s: State, latest: Option<RecordId>): State
    requires s.task.Some? && IsLatest(s.records, latest)
  {
    if latest.None? && s.task.value.job.Project? then SetTask(s, Finished)
    else SetTask(s, Writing(SharedKey,
      if latest.Some? then Some(Content(latest.value, s.records[latest.value].value)) else None, Unread))
  }

  predicate InStage(s: State, stage: Stage) {
    s.task.Some? && s.task.value.stage == stage
  }

  predicate Trying(s: State, attempt: Attempt) {
    s.task.Some? && s.task.value.stage.Writing? && s.task.value.stage.attempt == attempt
  }

  /** What a live writer becomes when its session drops; a put it waits for stays its own. */
  function StrayOf(t: Task): Stray
    requires t.stage.Writing?
  {
    Stray(t.job, t.stage.key, t.stage.content,
          if t.stage.attempt.Waiting? then Some(t.stage.attempt.nonce) else None)
  }

  function PutOf(w: Stray, version: Option<Nonce>): Put {
    Put(w.key, version, w.content, w.job)
  }

  predicate MaySend(s: State, w: StrayId, version: Option<Nonce>) {
    w in s.strays && s.strays[w].waiting.None? && (version.Some? ==> version.value in s.store.landed)
  }

  function Next(s: State, step: Step): State {
    match step
    case StoreRecord(id, value, createdAt) =>
      if id in s.records then s else s.(records := s.records[id := Record(value, createdAt, Current)])
    case Destroy(id, to) =>
      if IsCurrent(s.records, id) && !to.Current? && !RowLocked(s, id)
      then s.(records := s.records[id := Record(if to.Anonymized? || to.Purged? then 0 else s.records[id].value,
                                                s.records[id].createdAt, to)]) else s
    case Acquire(job) => if s.task.None? then s.(task := Some(Task(job, Entered))) else s
    case CheckRecord => if InStage(s, Entered) then AfterCheck(s, s.task.value.job) else s
    case ReadVersion =>
      if Trying(s, Unread)
      then SetTask(s, s.task.value.stage.(attempt := Read(Version(s.store, s.task.value.stage.key)))) else s
    case SendPut =>
      if s.task.Some? && s.task.value.stage.Writing? && s.task.value.stage.attempt.Read? then
        var w := s.task.value.stage;
        SetTask(s.(store := Issue(s.store, Put(w.key, w.attempt.version, w.content, s.task.value.job))),
                w.(attempt := Waiting(s.store.next)))
      else s
    case LandPut(n) => if n in s.store.inFlight then AfterLanding(s, n) else s
    case QueryLatest(latest) => if InStage(s, BetweenKeys) && IsLatest(s.records, latest) then AfterQuery(s, latest)
      else s
    case Leave => s.(task := None)
    case LoseLock(w) =>
      if w !in s.strays && s.task.Some? && s.task.value.stage.Writing?
      then s.(task := None, strays := s.strays[w := StrayOf(s.task.value)]) else s
    case StraySend(w, version) =>
      if MaySend(s, w, version)
      then s.(store := Issue(s.store, PutOf(s.strays[w], version)),
              strays := s.strays[w := s.strays[w].(waiting := Some(s.store.next))]) else s
    case StrayEnds(w) => s.(strays := s.strays - {w})
  }

  function Run(s: State, steps: seq<Step>): State
    decreases |steps|
  {
    if steps == [] then s else Run(Next(s, steps[0]), steps[1..])
  }

  // ---- What every reachable state keeps ----

  predicate From(content: Option<Content>, id: RecordId) {
    content.Some? && content.value.record == id
  }

  /** The live writer would put content of this record on this key. */
  predicate PendingOn(s: State, key: Key, id: RecordId) {
    s.task.Some? && s.task.value.stage.Writing? && s.task.value.stage.key == key && From(s.task.value.stage.content, id)
  }

  /** The put a writer waits for is in flight. */
  predicate IsOwnPut(store: Store, n: Nonce, key: Key, content: Option<Content>) {
    n in store.inFlight && store.inFlight[n].key == key && store.inFlight[n].content == content
  }

  ghost predicate TaskIsTrue(s: State) {
    s.task.Some? && !s.task.value.stage.Entered? ==>
      var job, stage := s.task.value.job, s.task.value.stage;
      && (if job.Project? then IsCurrent(s.records, job.id) else Gone(s.records, job.id))
      && (stage.Writing? && stage.key.RecordKey? ==>
            && stage.key.id == job.id
            && (if job.Project? then From(stage.content, job.id) else stage.content.None?))
      && (stage.Writing? && stage.attempt.Read? && stage.attempt.version.Some? ==>
            stage.attempt.version.value in s.store.landed)
      && (stage.Writing? && job.Cleanup? ==> !From(stage.content, job.id))
      && (stage.Writing? && stage.attempt.Waiting? ==>
            IsOwnPut(s.store, stage.attempt.nonce, stage.key, stage.content))
  }

  /** Tombstones are only ever sent for records that have left the current state. */
  ghost predicate PutIsTrue(s: State, put: Put) {
    && (put.key.RecordKey? ==> if put.content.None? then Gone(s.records, put.key.id) else From(put.content, put.key.id))
    && (put.writer.Cleanup? ==> Gone(s.records, put.writer.id))
    && (put.key.SharedKey? && put.writer.Cleanup? ==>
          !From(put.content, put.writer.id) && !PendingOn(s, SharedKey, put.writer.id))
  }

  ghost predicate PutsAreTrue(s: State) {
    forall n :: n in s.store.inFlight ==> PutIsTrue(s, s.store.inFlight[n])
  }

  predicate Tombstone(store: Store, id: RecordId) {
    RecordKey(id) in store.objects && store.objects[RecordKey(id)].content.None?
  }

  /** A stray writes what its job was writing when the lock was lost. */
  ghost predicate StrayIsTrue(s: State, w: Stray) {
    && (w.job.Cleanup? ==>
          Gone(s.records, w.job.id) && !From(w.content, w.job.id) && !PendingOn(s, SharedKey, w.job.id))
    && (w.key.RecordKey? ==> if w.content.None? then Gone(s.records, w.key.id) else From(w.content, w.key.id))
    && (w.waiting.Some? ==> IsOwnPut(s.store, w.waiting.value, w.key, w.content))
  }

  ghost predicate StraysAreTrue(s: State) {
    forall w :: w in s.strays ==> StrayIsTrue(s, s.strays[w])
  }

  /** A record's key shows that record, or a tombstone once it is gone. */
  ghost predicate ObjectsAreTrue(s: State) {
    forall id :: RecordKey(id) in s.store.objects ==>
      var content := s.store.objects[RecordKey(id)].content;
      if content.None? then Gone(s.records, id) else From(content, id)
  }

  ghost predicate Inv(s: State) {
    StoreInv(s.store) && TaskIsTrue(s) && StraysAreTrue(s) && PutsAreTrue(s) && ObjectsAreTrue(s)
  }

  lemma RecordsStepKeepsInv(s: State, step: Step)
    requires Inv(s) && (step.StoreRecord? || step.Destroy?)
    ensures Inv(Next(s, step))
  {
    hide StoreInv, Matches;
    var n := Next(s, step);
    assert n.store == s.store && n.task == s.task && n.strays == s.strays;
    assert forall id :: Gone(s.records, id) ==> Gone(n.records, id);
    assert s.task.Some? && s.task.value.job.Project? && !s.task.value.stage.Entered? ==>
      IsCurrent(n.records, s.task.value.job.id);
    hide Next, Gone, IsCurrent, From;
  }

  lemma TaskStepKeepsInv(s: State, step: Step)
    requires Inv(s) && (step.Acquire? || step.CheckRecord? || step.ReadVersion? || step.Leave?)
    ensures Inv(Next(s, step))
  {
    hide Matches;
    var n := Next(s, step);
    assert n.store == s.store && n.records == s.records && n.strays == s.strays;
    assert forall id :: PendingOn(n, SharedKey, id) ==> PendingOn(s, SharedKey, id);
    assert TaskIsTrue(n);
    hide Next, Gone, From, PendingOn, TaskIsTrue, StoreInv;
  }

  lemma LockStepKeepsInv(s: State, step: Step)
    requires Inv(s) && (step.LoseLock? || step.StrayEnds?)
    ensures Inv(Next(s, step))
  {
    hide Matches;
    var n := Next(s, step);
    assert n.store == s.store && n.records == s.records;
    assert forall id :: PendingOn(n, SharedKey, id) ==> PendingOn(s, SharedKey, id);
    assert TaskIsTrue(n);
    forall w | w in n.strays ensures StrayIsTrue(n, n.strays[w]) {
      if w in s.strays { assert StrayIsTrue(s, s.strays[w]); }
    }
    hide Next, Gone, From, PendingOn, TaskIsTrue, StoreInv, StrayIsTrue;
  }

  lemma QueryKeepsInv(s: State, latest: Option<RecordId>)
    requires Inv(s) && InStage(s, BetweenKeys) && IsLatest(s.records, latest)
    ensures Inv(AfterQuery(s, latest))
  {
    hide Matches, NewerOrSame;
    var n := AfterQuery(s, latest);
    assert n.store == s.store && n.records == s.records && n.strays == s.strays;
    assert forall id :: PendingOn(n, SharedKey, id) ==> !Gone(s.records, id);
    assert TaskIsTrue(n);
    hide AfterQuery, From, PendingOn, TaskIsTrue, StoreInv, IsLatest;
  }

  lemma SendKeepsInv(s: State)
    requires Inv(s) && s.task.Some? && s.task.value.stage.Writing? && s.task.value.stage.attempt.Read?
    ensures Inv(Next(s, SendPut))
  {
    var n, w := Next(s, SendPut), s.task.value.stage;
    var put := Put(w.key, w.attempt.version, w.content, s.task.value.job);
    IssueKeepsStore(s.store, put);
    assert n.store == Issue(s.store, put) && n.records == s.records && n.strays == s.strays;
    assert forall id :: PendingOn(n, SharedKey, id) <==> PendingOn(s, SharedKey, id);
    assert TaskIsTrue(n);
    assert PutIsTrue(n, put);
    assert n.store.inFlight == s.store.inFlight[s.store.next := put] && n.store.objects == s.store.objects;
    hide Next, Issue, StoreInv, TaskIsTrue, From, PendingOn, Gone, IsCurrent;
  }

  lemma StraySendKeepsInv(s: State, w: StrayId, version: Option<Nonce>)
    requires Inv(s) && MaySend(s, w, version)
    ensures Inv(Next(s, StraySend(w, version)))
  {
    var n, put := Next(s, StraySend(w, version)), PutOf(s.strays[w], version);
    IssueKeepsStore(s.store, put);
    assert n.store == Issue(s.store, put) && n.records == s.records && n.task == s.task;
    assert forall id :: PendingOn(n, SharedKey, id) <==> PendingOn(s, SharedKey, id);
    assert StrayIsTrue(s, s.strays[w]);
    assert PutIsTrue(n, put);
    assert n.store.inFlight == s.store.inFlight[s.store.next := put] && n.store.objects == s.store.objects
      && n.store.landed == s.store.landed && s.store.next !in s.store.inFlight;
    hide Next, Issue, StoreInv, From, PendingOn, Gone, IsCurrent;
  }

  /** What one landing leaves of the store and the puts still in flight. */
  lemma LandFacts(s: State, n: Nonce)
    requires StoreInv(s.store) && n in s.store.inFlight
    ensures
      var t, put := AfterLanding(s, n), s.store.inFlight[n];
      && StoreInv(t.store) && t.records == s.records && t.store.inFlight == s.store.inFlight - {n}
      && s.store.landed <= t.store.landed
      && t.store.objects == (if Matches(s.store, put) then s.store.objects[put.key := Envelope(n, put.content)]
           else s.store.objects)
      && (forall m :: m in t.store.inFlight && Matches(t.store, t.store.inFlight[m]) ==>
            Matches(s.store, s.store.inFlight[m])
            && !(Matches(s.store, put) && s.store.inFlight[m].key == put.key))
      && (t.task.Some? <==> s.task.Some?)
      && (forall key, id :: PendingOn(t, key, id) ==> PendingOn(s, key, id))
  {
    LandKeepsStore(s.store, n);
  }

  lemma LandKeepsTask(s: State, n: Nonce)
    requires StoreInv(s.store) && TaskIsTrue(s) && n in s.store.inFlight
    ensures TaskIsTrue(AfterLanding(s, n))
  {
    LandFacts(s, n);
    hide Matches, StoreInv;
  }

  lemma LandKeepsStray(s: State, n: Nonce, w: StrayId)
    requires Inv(s) && n in s.store.inFlight && w in AfterLanding(s, n).strays
    ensures StrayIsTrue(AfterLanding(s, n), AfterLanding(s, n).strays[w])
  {
    LandFacts(s, n);
    LandAnswers(s, n);
    assert StrayIsTrue(s, s.strays[w]);
    hide AfterLanding, StoreInv, TaskIsTrue, PutsAreTrue, ObjectsAreTrue, From, PendingOn, Gone;
  }

  lemma LandAnswers(s: State, n: Nonce)
    requires n in s.store.inFlight
    ensures AfterLanding(s, n).strays == AfterAnswer(s.strays, n, Matches(s.store, s.store.inFlight[n]))
  {
  }

  lemma LandKeepsInv(s: State, n: Nonce)
    requires Inv(s) && n in s.store.inFlight
    ensures Inv(AfterLanding(s, n))
  {
    var t, put := AfterLanding(s, n), s.store.inFlight[n];
    LandFacts(s, n);
    LandKeepsTask(s, n);
    hide AfterLanding, Matches, StoreInv, TaskIsTrue, From, PendingOn, Gone;
    assert PutIsTrue(s, put);
    forall m | m in t.store.inFlight ensures PutIsTrue(t, t.store.inFlight[m]) {
      assert PutIsTrue(s, s.store.inFlight[m]);
    }
    forall w | w in t.strays ensures StrayIsTrue(t, t.strays[w]) {
      LandKeepsStray(s, n, w);
    }
  }

  lemma NextKeepsInv(s: State, step: Step)
    requires Inv(s)
    ensures Inv(Next(s, step))
  {
    hide Inv, AfterQuery, AfterLanding, IsLatest;
    match step
    case StoreRecord(_, _, _) => RecordsStepKeepsInv(s, step);
    case Destroy(_, _) => RecordsStepKeepsInv(s, step);
    case SendPut =>
      if s.task.Some? && s.task.value.stage.Writing? && s.task.value.stage.attempt.Read? { SendKeepsInv(s); }
    case LandPut(n) => if n in s.store.inFlight { LandKeepsInv(s, n); }
    case QueryLatest(latest) =>
      if InStage(s, BetweenKeys) && IsLatest(s.records, latest) { QueryKeepsInv(s, latest); }
    case LoseLock(_) => LockStepKeepsInv(s, step);
    case StrayEnds(_) => LockStepKeepsInv(s, step);
    case StraySend(w, version) =>
      if MaySend(s, w, version) { StraySendKeepsInv(s, w, version); }
    case _ => TaskStepKeepsInv(s, step);
  }

  lemma InitIsConsistent()
    ensures Inv(Init())
  {
  }

  lemma {:induction false} RunKeepsInv(s: State, steps: seq<Step>)
    requires Inv(s)
    ensures Inv(Run(s, steps))
    decreases |steps|
  {
    hide Inv, Next;
    if steps != [] {
      NextKeepsInv(s, steps[0]);
      RunKeepsInv(Next(s, steps[0]), steps[1..]);
    }
  }

  // ---- When a key forgets a record for good ----

  /** The key shows something written for the record. */
  predicate Shows(store: Store, key: Key, id: RecordId) {
    key in store.objects && From(store.objects[key].content, id)
  }

  /** The record is gone and the key, once written, does not show it. */
  predicate Clear(s: State, key: Key, id: RecordId) {
    Gone(s.records, id) && key in s.store.objects && !Shows(s.store, key, id)
  }

  predicate Writes(w: Stray, key: Key, id: RecordId) {
    w.key == key && From(w.content, id)
  }

  /** A worker that lost its lock is still writing the record to this key. */
  predicate StrayFor(s: State, key: Key, id: RecordId) {
    exists w :: w in s.strays && Writes(s.strays[w], key, id)
  }

  /** Nothing in flight that shows the record on this key can land any more. */
  ghost predicate NoneMatches(store: Store, key: Key, id: RecordId) {
    forall n :: n in store.inFlight && store.inFlight[n].key == key && From(store.inFlight[n].content, id) ==>
      !Matches(store, store.inFlight[n])
  }

  /** Nobody writes the record to this key, and nothing on its way there can put it back. */
  ghost predicate Safe(s: State, key: Key, id: RecordId) {
    !StrayFor(s, key, id) && !PendingOn(s, key, id) && NoneMatches(s.store, key, id)
  }

  lemma RecordsStepKeepsClear(s: State, step: Step, key: Key, id: RecordId)
    requires (step.StoreRecord? || step.Destroy?) && Clear(s, key, id) && Safe(s, key, id)
    ensures Clear(Next(s, step), key, id) && Safe(Next(s, step), key, id)
  {
    hide Matches, From;
    var n := Next(s, step);
    assert n.store == s.store && n.task == s.task && n.strays == s.strays;
  }

  lemma TaskStepKeepsClear(s: State, step: Step, key: Key, id: RecordId)
    requires Inv(s) && Clear(s, key, id) && Safe(s, key, id)
    requires !step.StoreRecord? && !step.Destroy? && !step.LandPut? && !step.SendPut? && !step.StraySend?
    ensures Clear(Next(s, step), key, id) && Safe(Next(s, step), key, id)
  {
    hide Matches, StoreInv, PutsAreTrue, ObjectsAreTrue, StraysAreTrue, NewerOrSame;
    var n := Next(s, step);
    assert n.store == s.store && n.records == s.records;
    assert PendingOn(n, key, id) ==> PendingOn(s, key, id);
    assert StrayFor(n, key, id) ==> StrayFor(s, key, id) || PendingOn(s, key, id);
    hide Next, From, PendingOn, StrayFor;
  }

  lemma SendKeepsClear(s: State, put: Put, key: Key, id: RecordId)
    requires Inv(s) && Clear(s, key, id) && Safe(s, key, id)
    requires put.key == key ==> !From(put.content, id)
    ensures Clear(s.(store := Issue(s.store, put)), key, id) && Safe(s.(store := Issue(s.store, put)), key, id)
  {
    hide From;
  }

  lemma LandKeepsClear(s: State, n: Nonce, key: Key, id: RecordId)
    requires Inv(s) && n in s.store.inFlight && Clear(s, key, id) && Safe(s, key, id)
    ensures Clear(AfterLanding(s, n), key, id) && Safe(AfterLanding(s, n), key, id)
  {
    LandFacts(s, n);
    LandAnswers(s, n);
    var strays := AfterLanding(s, n).strays;
    assert forall w :: w in strays && Writes(strays[w], key, id) ==> StrayFor(s, key, id);
    hide AfterLanding, Matches, StoreInv, From, PendingOn, StrayFor;
    assert !(exists w :: w in strays && Writes(strays[w], key, id));
  }

  lemma StepKeepsClear(s: State, step: Step, key: Key, id: RecordId)
    requires Inv(s) && Clear(s, key, id) && Safe(s, key, id)
    ensures Clear(Next(s, step), key, id) && Safe(Next(s, step), key, id)
  {
    match step
    case StoreRecord(_, _, _) => RecordsStepKeepsClear(s, step, key, id);
    case Destroy(_, _) => RecordsStepKeepsClear(s, step, key, id);
    case LandPut(n) => if n in s.store.inFlight { LandKeepsClear(s, n, key, id); }
    case SendPut => LiveSendKeepsClear(s, key, id);
    case StraySend(w, version) =>
      if MaySend(s, w, version) { StraySendKeepsClear(s, w, version, key, id); }
    case _ => TaskStepKeepsClear(s, step, key, id);
    hide Inv, Clear, Safe, AfterLanding, AfterQuery, AfterCheck, Issue;
  }

  lemma StraySendKeepsClear(s: State, w: StrayId, version: Option<Nonce>, key: Key, id: RecordId)
    requires Inv(s) && Clear(s, key, id) && Safe(s, key, id) && MaySend(s, w, version)
    ensures Clear(Next(s, StraySend(w, version)), key, id) && Safe(Next(s, StraySend(w, version)), key, id)
  {
    var n := Next(s, StraySend(w, version));
    assert !Writes(s.strays[w], key, id);
    SendKeepsClear(s, PutOf(s.strays[w], version), key, id);
    var sent := s.(store := Issue(s.store, PutOf(s.strays[w], version)));
    assert n.store == sent.store && n.records == s.records && n.task == s.task;
    assert forall x :: x in n.strays ==>
      x in s.strays && (Writes(n.strays[x], key, id) <==> Writes(s.strays[x], key, id));
    hide Inv, Next, From, Issue, Matches, Writes;
  }

  lemma LiveSendKeepsClear(s: State, key: Key, id: RecordId)
    requires Inv(s) && Clear(s, key, id) && Safe(s, key, id)
    ensures Clear(Next(s, SendPut), key, id) && Safe(Next(s, SendPut), key, id)
  {
    if s.task.Some? && s.task.value.stage.Writing? && s.task.value.stage.attempt.Read? {
      var w := s.task.value.stage;
      var put := Put(w.key, w.attempt.version, w.content, s.task.value.job);
      SendKeepsClear(s, put, key, id);
      var sent := s.(store := Issue(s.store, put));
      var n := Next(s, SendPut);
      hide Inv, From, Issue, Matches;
      assert n.store == sent.store && n.records == s.records && n.strays == s.strays;
      assert PendingOn(n, key, id) <==> PendingOn(s, key, id);
      hide Next, PendingOn;
    }
  }

  lemma {:induction false} ClearIsForever(s: State, steps: seq<Step>, key: Key, id: RecordId)
    requires Inv(s) && Clear(s, key, id) && Safe(s, key, id)
    ensures Clear(Run(s, steps), key, id)
    decreases |steps|
  {
    hide Next, Inv, Clear, Safe;
    if steps != [] {
      StepKeepsClear(s, steps[0], key, id);
      NextKeepsInv(s, steps[0]);
      ClearIsForever(Next(s, steps[0]), steps[1..], key, id);
    }
  }

  lemma LandShows(s: State, n: Nonce, key: Key, id: RecordId)
    requires n in s.store.inFlight && Matches(s.store, s.store.inFlight[n])
    requires s.store.inFlight[n].key == key && From(s.store.inFlight[n].content, id)
    ensures Shows(Next(s, LandPut(n)).store, key, id)
  {
  }

  /** A stray that waits for nothing reads the version and writes again. */
  lemma StrayShows(s: State, w: StrayId, key: Key, id: RecordId)
    requires Inv(s) && w in s.strays && s.strays[w].waiting.None? && Writes(s.strays[w], key, id)
    ensures Shows(Run(s, [StraySend(w, Version(s.store, key)), LandPut(s.store.next)]).store, key, id)
  {
    var version := Version(s.store, key);
    VersionHasLanded(s.store, key);
    var sent := Next(s, StraySend(w, version));
    SentMatches(s, w, key);
    LandShows(sent, s.store.next, key, id);
    RunTwo(s, StraySend(w, version), LandPut(s.store.next));
  }

  lemma SentMatches(s: State, w: StrayId, key: Key)
    requires w in s.strays && s.strays[w].key == key && MaySend(s, w, Version(s.store, key))
    ensures
      var sent := Next(s, StraySend(w, Version(s.store, key)));
      && s.store.next in sent.store.inFlight && Matches(sent.store, sent.store.inFlight[s.store.next])
      && sent.store.inFlight[s.store.next].key == key
      && sent.store.inFlight[s.store.next].content == s.strays[w].content
  {
  }

  /** Any stray can bring its record back: its put lands, or is refused and it writes again. */
  lemma StrayRevives(s: State, w: StrayId, key: Key, id: RecordId) returns (steps: seq<Step>)
    requires Inv(s) && w in s.strays && Writes(s.strays[w], key, id)
    ensures Shows(Run(s, steps).store, key, id)
  {
    hide Inv, Matches, Next;
    if s.strays[w].waiting.None? {
      StrayShows(s, w, key, id);
      steps := [StraySend(w, Version(s.store, key)), LandPut(s.store.next)];
    } else {
      var n := s.strays[w].waiting.value;
      WaitsForItsOwn(s, w);
      RunTwo(s, LandPut(n), Leave);
      if Matches(s.store, s.store.inFlight[n]) {
        LandShows(s, n, key, id);
        steps := [LandPut(n)];
      } else {
        var refused := Next(s, LandPut(n));
        RefusedStays(s, w, n);
        NextKeepsInv(s, LandPut(n));
        StrayShows(refused, w, key, id);
        var rest := [StraySend(w, Version(refused.store, key)), LandPut(refused.store.next)];
        steps := [LandPut(n)] + rest;
        assert steps[1..] == rest;
      }
    }
  }

  lemma WaitsForItsOwn(s: State, w: StrayId)
    requires Inv(s) && w in s.strays && s.strays[w].waiting.Some?
    ensures IsOwnPut(s.store, s.strays[w].waiting.value, s.strays[w].key, s.strays[w].content)
  {
    assert StrayIsTrue(s, s.strays[w]);
  }

  lemma RefusedStays(s: State, w: StrayId, n: Nonce)
    requires n in s.store.inFlight && !Matches(s.store, s.store.inFlight[n])
    requires w in s.strays && s.strays[w].waiting == Some(n)
    ensures
      var t := Next(s, LandPut(n));
      w in t.strays && t.strays[w] == s.strays[w].(waiting := None)
  {
    LandAnswers(s, n);
    hide AfterLanding, Matches;
  }

  lemma FreshId(taken: set<StrayId>) returns (w: StrayId)
    ensures forall x :: x in taken ==> x < w
  {
    if taken == {} {
      w := 0;
    } else {
      var x :| x in taken;
      var rest := FreshId(taken - {x});
      w := if x < rest then rest else x + 1;
      assert forall y :: y in taken ==> y == x || y in taken - {x};
    }
  }

  lemma RunTwo(s: State, a: Step, b: Step)
    ensures Run(s, [a]) == Next(s, a)
    ensures Run(s, [a, b]) == Next(Next(s, a), b)
  {
    hide Next;
    assert [a][1..] == [] && [a, b][1..] == [b] && [b][1..] == [];
    assert Run(Next(s, a), [b]) == Next(Next(s, a), b);
  }

  /** Whatever is not safe has a run that brings the record back. */
  lemma UnsafeRevives(s: State, key: Key, id: RecordId) returns (steps: seq<Step>)
    requires Inv(s) && !Safe(s, key, id)
    ensures Shows(Run(s, steps).store, key, id)
  {
    hide Inv, Matches;
    if StrayFor(s, key, id) {
      var w :| w in s.strays && Writes(s.strays[w], key, id);
      steps := StrayRevives(s, w, key, id);
    } else if PendingOn(s, key, id) {
      var w := FreshId(s.strays.Keys);
      var n := Next(s, LoseLock(w));
      NextKeepsInv(s, LoseLock(w));
      var rest := StrayRevives(n, w, key, id);
      steps := [LoseLock(w)] + rest;
      assert steps[1..] == rest;
    } else {
      var n :| n in s.store.inFlight && s.store.inFlight[n].key == key && From(s.store.inFlight[n].content, id)
        && Matches(s.store, s.store.inFlight[n]);
      LandShows(s, n, key, id);
      RunTwo(s, LandPut(n), Leave);
      steps := [LandPut(n)];
    }
  }

  /** A key that does not show a gone record never shows it again exactly when the state is safe. */
  lemma StaysClearExactlyWhenSafe(s: State, key: Key, id: RecordId)
    requires Inv(s) && Clear(s, key, id)
    ensures (forall steps :: !Shows(Run(s, steps).store, key, id)) <==> Safe(s, key, id)
  {
    hide Inv, Safe, Shows, Run;
    if Safe(s, key, id) {
      forall steps ensures !Shows(Run(s, steps).store, key, id) {
        ClearIsForever(s, steps, key, id);
      }
    } else {
      var steps := UnsafeRevives(s, key, id);
      assert Shows(Run(s, steps).store, key, id);
    }
  }

  // ---- Results over every run ----

  /** A landing ends no stray that writes something else. */
  lemma StrayForStays(s: State, n: Nonce, key: Key, id: RecordId)
    requires Inv(s) && n in s.store.inFlight && !From(s.store.inFlight[n].content, id)
    ensures StrayFor(AfterLanding(s, n), key, id) <==> StrayFor(s, key, id)
  {
    LandAnswers(s, n);
    var t := AfterLanding(s, n);
    forall w | w in s.strays && Writes(s.strays[w], key, id)
      ensures w in t.strays && Writes(t.strays[w], key, id)
    {
      if s.strays[w].waiting.Some? { WaitsForItsOwn(s, w); }
    }
    hide AfterLanding, Inv, From;
  }

  /** What is left after a write that does not show a gone record has landed: only a stray can bring it back. */
  lemma LandedIsSafe(s: State, n: Nonce, id: RecordId)
    requires Inv(s) && n in s.store.inFlight && Matches(s.store, s.store.inFlight[n])
    requires !From(s.store.inFlight[n].content, id) && Gone(s.records, id)
    ensures
      var t, key := Next(s, LandPut(n)), s.store.inFlight[n].key;
      && Clear(t, key, id)
      && (!PendingOn(s, key, id) ==> (Safe(t, key, id) <==> !StrayFor(s, key, id)))
  {
    LandFacts(s, n);
    LandAnswers(s, n);
    StrayForStays(s, n, s.store.inFlight[n].key, id);
    hide AfterLanding, Matches, StoreInv, From, PendingOn;
    hide TaskIsTrue, PutsAreTrue, StraysAreTrue, ObjectsAreTrue, StrayFor;
  }

  /**
   No resurrection: from the landing of a record's tombstone on, its key is a
   tombstone in every later state, exactly when no worker that lost its lock is
   still writing that record.
   */
  lemma TombstoneIsForever(before: seq<Step>, n: Nonce, id: RecordId)
    requires
      var s := Run(Init(), before);
      n in s.store.inFlight && Matches(s.store, s.store.inFlight[n])
      && s.store.inFlight[n].key == RecordKey(id) && s.store.inFlight[n].content.None?
    ensures
      var s := Run(Init(), before);
      (forall after :: Tombstone(Run(Next(s, LandPut(n)), after).store, id)) <==> !StrayFor(s, RecordKey(id), id)
  {
    hide Run, Next, Matches, Safe, StrayFor;
    InitIsConsistent();
    RunKeepsInv(Init(), before);
    var s := Run(Init(), before);
    var t := Next(s, LandPut(n));
    assert PutIsTrue(s, s.store.inFlight[n]);
    GoneIsNotPending(s, id);
    LandedIsSafe(s, n, id);
    NextKeepsInv(s, LandPut(n));
    StaysClearExactlyWhenSafe(t, RecordKey(id), id);
    if Safe(t, RecordKey(id), id) {
      forall after ensures Tombstone(Run(t, after).store, id) {
        ClearIsForever(t, after, RecordKey(id), id);
        RunKeepsInv(t, after);
        ClearKeyIsTombstone(Run(t, after), id);
      }
    } else {
      var after :| Shows(Run(t, after).store, RecordKey(id), id);
      assert !Tombstone(Run(t, after).store, id);
    }
  }

  lemma GoneIsNotPending(s: State, id: RecordId)
    requires Inv(s) && Gone(s.records, id)
    ensures !PendingOn(s, RecordKey(id), id)
  {
  }

  lemma ClearKeyIsTombstone(s: State, id: RecordId)
    requires Inv(s) && Clear(s, RecordKey(id), id)
    ensures Tombstone(s.store, id)
  {
  }

  /**
   From the landing of a cleanup's write to the shared key on, that key never again
   shows anything written for its record, exactly when no worker that lost its lock
   is still writing that record there.
   */
  lemma SharedKeyForgets(before: seq<Step>, n: Nonce)
    requires
      var s := Run(Init(), before);
      n in s.store.inFlight && Matches(s.store, s.store.inFlight[n])
      && s.store.inFlight[n].key.SharedKey? && s.store.inFlight[n].writer.Cleanup?
    ensures
      var s := Run(Init(), before);
      var id := s.store.inFlight[n].writer.id;
      (forall after :: !Shows(Run(Next(s, LandPut(n)), after).store, SharedKey, id)) <==> !StrayFor(s, SharedKey, id)
  {
    hide Run, Next, Matches, Safe, StrayFor;
    InitIsConsistent();
    RunKeepsInv(Init(), before);
    var s := Run(Init(), before);
    assert PutIsTrue(s, s.store.inFlight[n]);
    var id := s.store.inFlight[n].writer.id;
    LandedIsSafe(s, n, id);
    NextKeepsInv(s, LandPut(n));
    StaysClearExactlyWhenSafe(Next(s, LandPut(n)), SharedKey, id);
  }

  function TheStray(): Stray {
    Stray(Project(0, 7), RecordKey(0), Some(Content(0, 7)), None)
  }

  /** The session of a projection drops, and its record is destroyed before the worker writes again. */
  function DropAndDestroy(): seq<Step> {
    [StoreRecord(0, 7, 0), Acquire(Project(0, 7)), CheckRecord, LoseLock(0), Destroy(0, Purged)]
  }

  /** The cleanup's tombstone, and the stray's next attempt. */
  function CleanThenStray(): seq<Step> {
    [Acquire(Cleanup(0)), CheckRecord, ReadVersion, SendPut, LandPut(0), StraySend(0, Some(0)), LandPut(1)]
  }

  lemma Dropped()
    ensures Run(Init(), DropAndDestroy()) ==
      State(Store(map[], map[], {}, 0), map[0 := Record(0, 0, Purged)], None, map[0 := TheStray()])
  {
    hide Run;
    var s0 := Next(Init(), StoreRecord(0, 7, 0));
    var s1 := Next(s0, Acquire(Project(0, 7)));
    var s2 := Next(s1, CheckRecord);
    var s3 := Next(s2, LoseLock(0));
    var s4 := Next(s3, Destroy(0, Purged));
    assert s3.strays == map[0 := TheStray()];
    assert s4.records == map[0 := Record(0, 0, Purged)];
    RunFive(Init(), StoreRecord(0, 7, 0), Acquire(Project(0, 7)), CheckRecord, LoseLock(0), Destroy(0, Purged));
  }

  lemma RunFive(s: State, a: Step, b: Step, c: Step, d: Step, e: Step)
    ensures Run(s, [a, b, c, d, e]) == Next(Next(Next(Next(Next(s, a), b), c), d), e)
  {
    hide Next;
    RunTwo(Next(Next(Next(s, a), b), c), d, e);
    assert [a, b, c, d, e][1..] == [b, c, d, e] && [b, c, d, e][1..] == [c, d, e] && [c, d, e][1..] == [d, e];
    assert Run(s, [a, b, c, d, e]) == Run(Next(s, a), [b, c, d, e]);
    assert Run(Next(s, a), [b, c, d, e]) == Run(Next(Next(s, a), b), [c, d, e]);
  }

  /** Such a run: the tombstone of a purged record lands, and its content comes back. */
  lemma LostLockResurrects()
    ensures
      var s := Run(Init(), DropAndDestroy());
      && Tombstone(Run(s, CleanThenStray()[..5]).store, 0) && Gone(s.records, 0)
      && Shows(Run(s, CleanThenStray()).store, RecordKey(0), 0)
  {
    Dropped();
    hide Run;
    var s := Run(Init(), DropAndDestroy());
    var s1 := Next(s, Acquire(Cleanup(0)));
    var s2 := Next(s1, CheckRecord);
    var s3 := Next(s2, ReadVersion);
    var s4 := Next(s3, SendPut);
    var s5 := Next(s4, LandPut(0));
    assert s4.store.inFlight == map[0 := Put(RecordKey(0), None, None, Cleanup(0))];
    assert s5.store.objects == map[RecordKey(0) := Envelope(0, None)] && s5.store.landed == {0} && s5.store.next == 1;
    var s6 := Next(s5, StraySend(0, Some(0)));
    RunFive(s, Acquire(Cleanup(0)), CheckRecord, ReadVersion, SendPut, LandPut(0));
    LandShows(s6, 1, RecordKey(0), 0);
    assert CleanThenStray()[..5] == [Acquire(Cleanup(0)), CheckRecord, ReadVersion, SendPut, LandPut(0)];
    assert CleanThenStray() == CleanThenStray()[..5] + [StraySend(0, Some(0)), LandPut(1)];
    RunConcat(s, CleanThenStray()[..5], [StraySend(0, Some(0)), LandPut(1)]);
    RunTwo(s5, StraySend(0, Some(0)), LandPut(1));
  }

  lemma {:induction false} RunConcat(s: State, a: seq<Step>, b: seq<Step>)
    ensures Run(s, a + b) == Run(Run(s, a), b)
    decreases |a|
  {
    hide Next;
    if a == [] {
      assert a + b == b;
    } else {
      RunConcat(Next(s, a[0]), a[1..], b);
      assert (a + b)[1..] == a[1..] + b;
    }
  }

  /** While no session drops under a live writer there is no such worker. */
  lemma {:induction false} WithoutLossNoStrays(s: State, steps: seq<Step>)
    requires s.strays == map[] && forall i :: 0 <= i < |steps| ==> !steps[i].LoseLock?
    ensures Run(s, steps).strays == map[]
    decreases |steps|
  {
    if steps != [] {
      assert Next(s, steps[0]).strays == map[] by { assert !steps[0].LoseLock?; hide IsLatest, Land, Issue, Matches; }
      hide Next;
      assert forall i :: 0 <= i < |steps[1..]| ==> steps[1..][i] == steps[i + 1];
      WithoutLossNoStrays(Next(s, steps[0]), steps[1..]);
    }
  }

  /** So a tombstone that landed before any session dropped stays for good, whatever drops later. */
  lemma HeldLockKeepsTombstone(before: seq<Step>, n: Nonce, id: RecordId, after: seq<Step>)
    requires forall i :: 0 <= i < |before| ==> !before[i].LoseLock?
    requires
      var s := Run(Init(), before);
      n in s.store.inFlight && Matches(s.store, s.store.inFlight[n])
      && s.store.inFlight[n].key == RecordKey(id) && s.store.inFlight[n].content.None?
    ensures Tombstone(Run(Next(Run(Init(), before), LandPut(n)), after).store, id)
  {
    hide Run, Next, Matches, Tombstone;
    WithoutLossNoStrays(Init(), before);
    TombstoneIsForever(before, n, id);
  }

  /** A record that has left the current state never returns to it. */
  lemma {:induction false} GoneIsForever(s: State, steps: seq<Step>, id: RecordId)
    requires Gone(s.records, id)
    ensures Gone(Run(s, steps).records, id)
    decreases |steps|
  {
    if steps != [] {
      assert Gone(Next(s, steps[0]).records, id) by { hide IsLatest, Matches, Land; }
      hide Next;
      GoneIsForever(Next(s, steps[0]), steps[1..], id);
    }
  }

  /** Whatever an outdated put's writer does, it never becomes current: its nonce never lands. */
  lemma {:induction false} OutdatedNeverLands(s: State, steps: seq<Step>, n: Nonce)
    requires Inv(s) && n < s.store.next && n !in s.store.landed && Outdated(s.store, n)
    ensures n !in Run(s, steps).store.landed
    decreases |steps|
  {
    if steps != [] {
      StepKeepsOutdated(s, steps[0], n);
      NextKeepsInv(s, steps[0]);
      hide Next, Inv, Outdated;
      OutdatedNeverLands(Next(s, steps[0]), steps[1..], n);
    }
  }

  lemma StepKeepsOutdated(s: State, step: Step, n: Nonce)
    requires Inv(s) && n < s.store.next && n !in s.store.landed && Outdated(s.store, n)
    ensures
      var t := Next(s, step).store;
      n < t.next && n !in t.landed && Outdated(t, n)
  {
    hide IsLatest, TaskIsTrue, StrayIsTrue, PutIsTrue, Tombstone, AfterCheck, AfterQuery;
    if step.LandPut? && step.nonce in s.store.inFlight {
      OutdatedStaysOutdated(s.store, n, step.nonce);
      LandFacts(s, step.nonce);
    }
    StepStore(s, step);
  }

  /** Only sending and landing touch the store. */
  lemma StepStore(s: State, step: Step)
    ensures
      var t := Next(s, step).store;
      || t == s.store
      || (step.LandPut? && step.nonce in s.store.inFlight && t == Land(s.store, step.nonce))
      || exists put :: t == Issue(s.store, put)
  {
    hide IsLatest, Matches, Land, Issue;
  }

  /** A landed put overtakes every put then in flight on its key: none of them ever lands. */
  lemma LandedPutOvertakes(before: seq<Step>, n: Nonce, other: Nonce, after: seq<Step>)
    requires
      var store := Run(Init(), before).store;
      && n in store.inFlight && Matches(store, store.inFlight[n])
      && other in store.inFlight && other != n && store.inFlight[other].key == store.inFlight[n].key
    ensures other !in Run(Next(Run(Init(), before), LandPut(n)), after).store.landed
  {
    InitIsConsistent();
    RunKeepsInv(Init(), before);
    var s := Run(Init(), before);
    NextKeepsInv(s, LandPut(n));
    LandingOutdatesOthers(s.store, n, other);
    LandFacts(s, n);
    hide Run;
    OutdatedNeverLands(Next(s, LandPut(n)), after, other);
  }

  // ---- The writer's retry loop ----

  /** Delayed puts of others arrive, in any order and number. */
  function LandAll(store: Store, late: seq<Nonce>): Store
    decreases |late|
  {
    if late == [] then store
    else LandAll(if late[0] in store.inFlight then Land(store, late[0]) else store, late[1..])
  }

  /** Nothing in flight on this key matches. */
  ghost predicate Settled(store: Store, key: Key) {
    forall n :: n in store.inFlight && store.inFlight[n].key == key ==> !Matches(store, store.inFlight[n])
  }

  lemma OneLateLanding(store: Store, n: Nonce, key: Key)
    requires StoreInv(store) && n in store.inFlight
    ensures Version(Land(store, n), key) == Version(store, key) || Settled(Land(store, n), key)
    ensures Settled(store, key) ==> Settled(Land(store, n), key) && Version(Land(store, n), key) == Version(store, key)
  {
  }

  /** Late arrivals change a key's version only by leaving nothing behind that could change it again. */
  lemma {:induction false} LateLandings(store: Store, late: seq<Nonce>, key: Key)
    requires StoreInv(store)
    ensures
      var after := LandAll(store, late);
      && StoreInv(after) && store.landed <= after.landed
      && (Version(after, key) == Version(store, key) || Settled(after, key))
      && (Settled(store, key) ==> Settled(after, key) && Version(after, key) == Version(store, key))
    decreases |late|
  {
    hide Settled, StoreInv, Version;
    if late == [] {
    } else if late[0] in store.inFlight {
      LandKeepsStore(store, late[0]);
      OneLateLanding(store, late[0], key);
      LateLandings(Land(store, late[0]), late[1..], key);
    } else {
      LateLandings(store, late[1..], key);
    }
  }

  lemma OwnPut(store: Store, put: Put)
    requires StoreInv(store) && (put.expected.Some? ==> put.expected.value in store.landed)
    ensures
      var after := Land(Issue(store, put), store.next);
      && StoreInv(after)
      && (Version(store, put.key) != put.expected ==>
            after.objects == store.objects && after.inFlight == store.inFlight)
      && (Version(store, put.key) == put.expected ==>
            && after.objects == store.objects[put.key := Envelope(store.next, put.content)]
            && after.inFlight == store.inFlight && Settled(after, put.key))
  {
    IssueKeepsStore(store, put);
    LandKeepsStore(Issue(store, put), store.next);
    assert Issue(store, put).inFlight - {store.next} == store.inFlight;
  }

  class FencedObjects {
    var store: Store

    constructor ()
      ensures store == Store(map[], map[], {}, 0)
    {
      store := Store(map[], map[], {}, 0);
    }

    /**
     One atomic attempt of a caller that is not cancelled; the store may refuse it as
     conflicting with a request in progress, whatever the version.
     */
    method CompareAndReconcile(key: Key, expected: Option<Nonce>, content: Option<Content>, writer: Job, conflict: bool)
      returns (done: bool)
      requires StoreInv(store) && (expected.Some? ==> expected.value in store.landed)
      modifies this
      ensures done <==> !conflict && Version(old(store), key) == expected
      ensures store == if conflict then old(store)
                       else Land(Issue(old(store), Put(key, expected, content, writer)), old(store.next))
      ensures StoreInv(store)
      ensures done ==> key in store.objects && store.objects[key].content == content && Settled(store, key)
      ensures !done ==> store.objects == old(store.objects) && store.inFlight == old(store.inFlight)
    {
      hide StoreInv, Settled;
      if conflict {
        return false;
      }
      OwnPut(store, Put(key, expected, content, writer));
      var n := store.next;
      store := Issue(store, Put(key, expected, content, writer));
      done := Matches(store, store.inFlight[n]);
      store := Land(store, n);
    }

    /**
     Reconcile a key while holding the lock, with any puts of cancelled writers
     landing between the read and the put. Apart from attempts the store refuses
     as conflicting with a request in progress, two attempts are always enough.
     */
    method ReconcileObject(
      key: Key, content: Option<Content>, writer: Job, late: nat -> seq<Nonce>, conflicts: nat -> bool)
      returns (done: bool, attempts: nat)
      requires StoreInv(store)
      modifies this
      ensures StoreInv(store) && 1 <= attempts <= 8 && attempts <= 2 + CountTrue(conflicts, attempts)
      ensures done ==> key in store.objects && store.objects[key].content == content && Settled(store, key)
      ensures !done ==> attempts == 8 && CountTrue(conflicts, 8) >= 7
    {
      hide StoreInv, Settled, Version, Land, Issue;
      done, attempts := false, 0;
      while !done && attempts < 8
        invariant StoreInv(store) && attempts <= 8 && (done ==> attempts >= 1)
        invariant attempts <= (if done then 2 else 1) + CountTrue(conflicts, attempts)
        invariant !done && attempts == 1 + CountTrue(conflicts, attempts) ==> Settled(store, key)
        invariant done ==> key in store.objects && store.objects[key].content == content && Settled(store, key)
        decreases 8 - attempts, !done
      {
        var version := Version(store, key);
        VersionHasLanded(store, key);
        LateLandings(store, late(attempts), key);
        store := LandAll(store, late(attempts));
        ghost var settled := store;
        done := CompareAndReconcile(key, version, content, writer, conflicts(attempts));
        if !done && !conflicts(attempts) { SettledIsKept(settled, store, key); }
        attempts := attempts + 1;
      }
    }
  }

  function CountTrue(conflicts: nat -> bool, n: nat): nat {
    if n == 0 then 0 else CountTrue(conflicts, n - 1) + if conflicts(n - 1) then 1 else 0
  }

  lemma VersionHasLanded(store: Store, key: Key)
    requires StoreInv(store)
    ensures Version(store, key).Some? ==> Version(store, key).value in store.landed
  {
  }

  lemma SettledIsKept(a: Store, b: Store, key: Key)
    requires Settled(a, key) && b.objects == a.objects && b.inFlight == a.inFlight
    ensures Settled(b, key)
  {
    assert forall n :: n in b.inFlight && b.inFlight[n].key == key ==> !Matches(a, a.inFlight[n]);
  }
}
