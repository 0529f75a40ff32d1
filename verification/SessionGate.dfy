/** Management sessions in a cache and in the store: a revoked session does not come back.

    Validation refills the cache from the store, so a refill that is under way when the session is revoked could bring
    it back. A gate serialises cache misses with revocations. The model interleaves the single store calls and lock
    regions of any number of validations, revocations and creations. */
module SessionGate {
  import opened Basics

  const MAX_SESSIONS := 256

  type Token = string

  datatype Session = Session(createdAt: int, expiresAt: int)

  /** Where a request stands. `late` marks a validation that started after the token was revoked. */
  datatype Pc =
    | Lookup(token: Token, late: bool)
    | Hit(token: Token, session: Session, late: bool)
    | Dropping(token: Token, late: bool)
    | DropStored(token: Token, late: bool)
    | Waiting(token: Token, late: bool)
    | Reading(token: Token, late: bool)
    | Found(token: Token, session: Session, late: bool)
    | Answered(token: Token, valid: bool, late: bool)
    | RevokeWaiting(token: Token)
    | RevokeStored(token: Token)
    | RevokeCached(token: Token)
    | RevokeDone(token: Token, ok: bool)
    | CreateStored(token: Token, session: Session)
    | CreateCached(token: Token, session: Session)
    | Created(token: Token)

  /** `stored` is None when no store is bound. `used` are the tokens any request has named, `revoked` those whose
      revocation has succeeded. */
  datatype State = State(cache: map<Token, Session>, stored: Option<map<Token, Session>>, gate: Option<nat>,
                         threads: map<nat, Pc>, now: int, used: set<Token>, revoked: set<Token>)

  predicate Expired(s: Session, now: int) {
    now > s.expiresAt
  }

  function Unexpired(sessions: map<Token, Session>, now: int): map<Token, Session> {
    map t | t in sessions && !Expired(sessions[t], now) :: sessions[t]
  }

  /** An oldest session of the cache. */
  predicate Oldest(cache: map<Token, Session>, t: Token) {
    t in cache && forall u :: u in cache ==> cache[t].createdAt <= cache[u].createdAt
  }

  function StoreWithout(stored: Option<map<Token, Session>>, t: Token): Option<map<Token, Session>> {
    if stored.Some? then Some(stored.value - {t}) else None
  }

  // The answer of the store or of a timer in a step, and the session an eviction picks.
  datatype Answer = Answer(ok: bool, oldest: Token)

  predicate StepEnabled(s: State, id: nat, a: Answer) {
    id in s.threads
    && match s.threads[id]
       case Waiting(_, _) => a.ok ==> s.gate.None?
       case RevokeWaiting(_) => a.ok ==> s.gate.None?
       case CreateCached(_, _) => |s.cache| >= MAX_SESSIONS ==> Oldest(s.cache, a.oldest)
       case Answered(_, _, _) => false
       case RevokeDone(_, _) => false
       case Created(_) => false
       case _ => true
  }

  /** The next store call or lock region of one request. */
  function Step(s: State, id: nat, a: Answer): State
    requires StepEnabled(s, id, a)
  {
    match s.threads[id]
    case Lookup(t, late) =>
      s.(threads := s.threads[id := if t in s.cache then Hit(t, s.cache[t], late) else Waiting(t, late)])
    case Hit(t, session, late) =>
      s.(threads := s.threads[id := if Expired(session, s.now) then Dropping(t, late) else Answered(t, true, late)])
    case Dropping(t, late) => s.(cache := s.cache - {t}, threads := s.threads[id := DropStored(t, late)])
    case DropStored(t, late) =>
      s.(stored := if a.ok then StoreWithout(s.stored, t)
          else s.stored, threads := s.threads[id := Answered(t, false, late)])
    case Waiting(t, late) =>
      if a.ok then s.(gate := Some(id), threads := s.threads[id := Reading(t, late)])
      else s.(threads := s.threads[id := Answered(t, false, late)])
    case Reading(t, late) =>
      if a.ok && s.stored.Some? && t in s.stored.value then
          s.(threads := s.threads[id := Found(t, s.stored.value[t], late)])
      else s.(gate := None, threads := s.threads[id := Answered(t, false, late)])
    case Found(t, session, late) =>
      if Expired(session, s.now) then
        s.(stored := if a.ok then StoreWithout(s.stored, t) else s.stored, gate := None,
           threads := s.threads[id := Answered(t, false, late)])
      else s.(cache := s.cache[t := session], gate := None, threads := s.threads[id := Answered(t, true, late)])
    case RevokeWaiting(t) =>
      if a.ok then s.(gate := Some(id), threads := s.threads[id := RevokeStored(t)])
      else s.(threads := s.threads[id := RevokeDone(t, false)])
    case RevokeStored(t) =>
      if a.ok || s.stored.None? then s.(stored := StoreWithout(s.stored, t),
          threads := s.threads[id := RevokeCached(t)])
      else s.(gate := None, threads := s.threads[id := RevokeDone(t, false)])
    case RevokeCached(t) =>
      s.(cache := s.cache - {t}, gate := None, threads := s.threads[id := RevokeDone(t, true)],
          revoked := s.revoked + {t})
    case CreateStored(t, session) =>
      s.(stored := if a.ok && s.stored.Some? then Some(s.stored.value[t := session]) else s.stored,
         threads := s.threads[id := CreateCached(t, session)])
    case CreateCached(t, session) =>
      if |s.cache| >= MAX_SESSIONS then
        s.(cache := (s.cache - {a.oldest})[t := session], stored := if a.ok then StoreWithout(s.stored, a.oldest)
            else s.stored, threads := s.threads[id := Created(t)])
      else s.(cache := s.cache[t := session], threads := s.threads[id := Created(t)])
    case _ => s
  }

  datatype Action =
    | StartValidate(id: nat, token: Token)
    | StartRevoke(id: nat, token: Token)
    | StartCreate(id: nat, token: Token, session: Session)
    | Progress(id: nat, answer: Answer)
    | CleanCache
    | CleanStore
    | Later(now: int)
    | Restart

  predicate Creating(pc: Pc, t: Token) {
    (pc.CreateStored? || pc.CreateCached?) && pc.token == t
  }

  /** A created token is new, and nobody can name it before its creation has returned. */
  predicate Enabled(s: State, a: Action) {
    match a
    case StartValidate(id, t) => id !in s.threads
    case StartRevoke(id, t) => id !in s.threads && forall i :: i in s.threads ==> !Creating(s.threads[i], t)
    case StartCreate(id, t, _) => id !in s.threads && t !in s.used
    case Progress(id, answer) => StepEnabled(s, id, answer)
    case Later(now) => now >= s.now
    case _ => true
  }

  function Next(s: State, a: Action): State
    requires Enabled(s, a)
  {
    match a
    case StartValidate(id, t) =>
      s.(threads := s.threads[id := if t == "" then Answered(t, false, t in s.revoked) else Lookup(t, t in s.revoked)],
          used := s.used + {t})
    case StartRevoke(id, t) =>
      s.(threads := s.threads[id := if t == "" then RevokeDone(t, true) else RevokeWaiting(t)], used := s.used + {t})
    case StartCreate(id, t, session) => s.(threads := s.threads[id := CreateStored(t, session)], used := s.used + {t})
    case Progress(id, answer) => Step(s, id, answer)
    case CleanCache => s.(cache := Unexpired(s.cache, s.now))
    case CleanStore => s.(stored := if s.stored.Some? then Some(Unexpired(s.stored.value, s.now)) else None)
    case Later(now) => s.(now := now)
    case Restart => s.(cache := map[], gate := None, threads := map[])
  }

  // -------------------------------------------------------------------------------------------
  // No resurrection
  // -------------------------------------------------------------------------------------------

  predicate Holds(pc: Pc) {
    pc.Reading? || pc.Found? || pc.RevokeStored? || pc.RevokeCached?
  }

  predicate Revoking(pc: Pc, t: Token) {
    (pc.RevokeWaiting? || pc.RevokeStored? || pc.RevokeCached?) && pc.token == t
  }

  predicate InStore(s: State, t: Token) {
    s.stored.Some? && t in s.stored.value
  }

  predicate Validating(pc: Pc) {
    pc.Lookup? || pc.Hit? || pc.Dropping? || pc.DropStored? || pc.Waiting? || pc.Reading? || pc.Found? || pc.Answered?
  }

  /** One request's own guarantee. */
  predicate Fine(s: State, id: nat, pc: Pc) {
    (Holds(pc) <==> s.gate == Some(id))
    && pc.token in s.used
    && (pc.RevokeCached? ==> !InStore(s, pc.token))
    && (pc.Found? ==> pc.token !in s.revoked)
    && (pc.CreateStored? || pc.CreateCached? ==> pc.token !in s.revoked)
    && (Validating(pc) ==>
          (pc.late ==> pc.token in s.revoked && !pc.Hit? && !pc.Found? && (pc.Answered? ==> !pc.valid)))
  }

  predicate NoCreationRevoked(s: State) {
    forall i, j :: i in s.threads && j in s.threads && Creating(s.threads[i], s.threads[i].token) ==>
      !Revoking(s.threads[j], s.threads[i].token)
  }

  predicate Gone(s: State) {
    (forall t :: t in s.revoked ==> t in s.used && t !in s.cache && !InStore(s, t))
  }

  predicate Inv(s: State) {
    (forall id :: id in s.threads ==> Fine(s, id, s.threads[id]))
    && (s.gate.Some? ==> s.gate.value in s.threads)
    && NoCreationRevoked(s) && Gone(s)
  }

  predicate Initial(s: State) {
    s.threads == map[] && s.gate == None && s.revoked == {}
  }

  lemma StepKeepsOther(s: State, id: nat, a: Answer, j: nat)
    requires Inv(s) && StepEnabled(s, id, a) && j in s.threads && j != id
    ensures Fine(Step(s, id, a), j, s.threads[j])
  {
  }

  lemma StepKeepsOwn(s: State, id: nat, a: Answer)
    requires Inv(s) && StepEnabled(s, id, a)
    ensures Fine(Step(s, id, a), id, Step(s, id, a).threads[id])
  {
    var pc := s.threads[id];
    assert Fine(s, id, pc);
    hide Step, Fine, Gone;
    if pc.Lookup? || pc.Hit? || pc.Dropping? || pc.DropStored? {
      CachedStepOwn(s, id, a);
    } else if pc.Waiting? || pc.Reading? || pc.Found? {
      StoredStepOwn(s, id, a);
    } else {
      ChangeStepOwn(s, id, a);
    }
  }

  lemma ChangeStepOwn(s: State, id: nat, a: Answer)
    requires StepEnabled(s, id, a) && Fine(s, id, s.threads[id])
    requires var pc := s.threads[id];
             pc.RevokeWaiting? || pc.RevokeStored? || pc.RevokeCached? || pc.CreateStored? || pc.CreateCached?
    ensures Fine(Step(s, id, a), id, Step(s, id, a).threads[id])
  {
    hide Fine, Step;
    if s.threads[id].CreateStored? || s.threads[id].CreateCached? {
      CreateStepOwn(s, id, a);
    } else {
      RevokeStepOwn(s, id, a);
    }
  }

  lemma RevokeStepOwn(s: State, id: nat, a: Answer)
    requires StepEnabled(s, id, a) && Fine(s, id, s.threads[id])
    requires var pc := s.threads[id]; pc.RevokeWaiting? || pc.RevokeStored? || pc.RevokeCached?
    ensures Fine(Step(s, id, a), id, Step(s, id, a).threads[id])
  {
    hide Oldest;
  }

  lemma CreateStepOwn(s: State, id: nat, a: Answer)
    requires StepEnabled(s, id, a) && Fine(s, id, s.threads[id])
    requires var pc := s.threads[id]; pc.CreateStored? || pc.CreateCached?
    ensures Fine(Step(s, id, a), id, Step(s, id, a).threads[id])
  {
    hide Oldest, StoreWithout;
  }

  lemma CachedStepOwn(s: State, id: nat, a: Answer)
    requires Gone(s) && StepEnabled(s, id, a) && Fine(s, id, s.threads[id])
    requires var pc := s.threads[id]; pc.Lookup? || pc.Hit? || pc.Dropping? || pc.DropStored?
    ensures Fine(Step(s, id, a), id, Step(s, id, a).threads[id])
  {
    hide Fine, Step, Gone;
    if s.threads[id].Lookup? || s.threads[id].Hit? {
      LookupStepOwn(s, id, a);
    } else {
      DropStepOwn(s, id, a);
    }
  }

  lemma LookupStepOwn(s: State, id: nat, a: Answer)
    requires Gone(s) && StepEnabled(s, id, a) && Fine(s, id, s.threads[id])
    requires s.threads[id].Lookup? || s.threads[id].Hit?
    ensures Fine(Step(s, id, a), id, Step(s, id, a).threads[id])
  {
    hide Oldest, StoreWithout, Expired;
  }

  lemma DropStepOwn(s: State, id: nat, a: Answer)
    requires StepEnabled(s, id, a) && Fine(s, id, s.threads[id])
    requires s.threads[id].Dropping? || s.threads[id].DropStored?
    ensures Fine(Step(s, id, a), id, Step(s, id, a).threads[id])
  {
    hide Oldest, StoreWithout, Expired;
  }

  lemma StoredStepOwn(s: State, id: nat, a: Answer)
    requires Gone(s) && StepEnabled(s, id, a) && Fine(s, id, s.threads[id])
    requires var pc := s.threads[id]; pc.Waiting? || pc.Reading? || pc.Found?
    ensures Fine(Step(s, id, a), id, Step(s, id, a).threads[id])
  {
  }

  lemma StepKeepsGone(s: State, id: nat, a: Answer)
    requires Inv(s) && StepEnabled(s, id, a)
    ensures Gone(Step(s, id, a))
  {
    var pc := s.threads[id];
    assert Fine(s, id, pc);
    hide Gone, Step;
    if pc.RevokeWaiting? || pc.RevokeStored? || pc.RevokeCached? || pc.CreateStored? || pc.CreateCached? {
      ChangeKeepsGone(s, id, a);
    } else {
      LookupKeepsGone(s, id, a);
    }
  }

  lemma ChangeKeepsGone(s: State, id: nat, a: Answer)
    requires Gone(s) && StepEnabled(s, id, a) && Fine(s, id, s.threads[id])
    requires var pc := s.threads[id];
             pc.RevokeWaiting? || pc.RevokeStored? || pc.RevokeCached? || pc.CreateStored? || pc.CreateCached?
    ensures Gone(Step(s, id, a))
  {
  }

  lemma LookupKeepsGone(s: State, id: nat, a: Answer)
    requires Gone(s) && StepEnabled(s, id, a) && Fine(s, id, s.threads[id])
    requires var pc := s.threads[id];
             !(pc.RevokeWaiting? || pc.RevokeStored? || pc.RevokeCached? || pc.CreateStored? || pc.CreateCached?)
    ensures Gone(Step(s, id, a))
  {
  }

  // A step changes one request's place; it starts no creation and no revocation.
  predicate SameShape(s: State, id: nat, t: State)
    requires id in s.threads
  {
    t.threads.Keys == s.threads.Keys && (forall j :: j in s.threads && j != id ==> t.threads[j] == s.threads[j])
    && t.threads[id].token == s.threads[id].token
    && (Creating(t.threads[id], s.threads[id].token) ==> Creating(s.threads[id], s.threads[id].token))
    && (Revoking(t.threads[id], s.threads[id].token) ==> Revoking(s.threads[id], s.threads[id].token))
    && (t.gate == None || t.gate == s.gate || t.gate == Some(id))
  }

  lemma StepShape(s: State, id: nat, a: Answer)
    requires StepEnabled(s, id, a)
    ensures SameShape(s, id, Step(s, id, a))
  {
    hide SameShape, Step;
    var pc := s.threads[id];
    if pc.Lookup? || pc.Hit? {
      LookupShape(s, id, a);
    } else if pc.Dropping? || pc.DropStored? {
      CachedShape(s, id, a);
    } else if pc.Waiting? || pc.Reading? || pc.Found? {
      StoredShape(s, id, a);
    } else {
      OtherShape(s, id, a);
    }
  }

  lemma CachedShape(s: State, id: nat, a: Answer)
    requires StepEnabled(s, id, a)
    requires var pc := s.threads[id]; pc.Dropping? || pc.DropStored?
    ensures SameShape(s, id, Step(s, id, a))
  {
  }

  lemma LookupShape(s: State, id: nat, a: Answer)
    requires StepEnabled(s, id, a)
    requires var pc := s.threads[id]; pc.Lookup? || pc.Hit?
    ensures SameShape(s, id, Step(s, id, a))
  {
  }

  lemma StoredShape(s: State, id: nat, a: Answer)
    requires StepEnabled(s, id, a)
    requires var pc := s.threads[id]; pc.Waiting? || pc.Reading? || pc.Found?
    ensures SameShape(s, id, Step(s, id, a))
  {
  }

  lemma OtherShape(s: State, id: nat, a: Answer)
    requires StepEnabled(s, id, a)
    requires var pc := s.threads[id];
             pc.RevokeWaiting? || pc.RevokeStored? || pc.RevokeCached? || pc.CreateStored? || pc.CreateCached?
    ensures SameShape(s, id, Step(s, id, a))
  {
  }

  lemma StepKeepsCreations(s: State, id: nat, a: Answer)
    requires Inv(s) && StepEnabled(s, id, a)
    ensures NoCreationRevoked(Step(s, id, a))
    ensures Step(s, id, a).gate.Some? ==> Step(s, id, a).gate.value in s.threads
    ensures Step(s, id, a).threads.Keys == s.threads.Keys
    ensures forall j :: j in s.threads && j != id ==> Step(s, id, a).threads[j] == s.threads[j]
  {
    StepShape(s, id, a);
    hide Step, StepEnabled, Fine, Gone;
    var t := Step(s, id, a);
    forall i, j | i in t.threads && j in t.threads && Creating(t.threads[i], t.threads[i].token)
      ensures !Revoking(t.threads[j], t.threads[i].token)
    {
      assert Creating(s.threads[i], s.threads[i].token) && s.threads[i].token == t.threads[i].token;
      assert !Revoking(s.threads[j], s.threads[i].token);
    }
  }

  lemma StepKeepsInv(s: State, id: nat, a: Answer)
    requires Inv(s) && StepEnabled(s, id, a)
    ensures Inv(Step(s, id, a))
  {
    var t := Step(s, id, a);
    StepKeepsOwn(s, id, a);
    StepKeepsGone(s, id, a);
    StepKeepsCreations(s, id, a);
    forall j | j in t.threads ensures Fine(t, j, t.threads[j]) {
      if j != id {
        StepKeepsOther(s, id, a, j);
      }
    }
    hide Step, Fine, Gone, NoCreationRevoked, StepEnabled;
  }

  lemma StartKeepsInv(s: State, a: Action)
    requires Inv(s) && Enabled(s, a) && (a.StartValidate? || a.StartRevoke? || a.StartCreate?)
    ensures Inv(Next(s, a))
  {
    var t := Next(s, a);
    forall j | j in t.threads ensures Fine(t, j, t.threads[j]) {
      if j != a.id {
        assert Fine(s, j, s.threads[j]);
      }
    }
    forall i, j | i in t.threads && j in t.threads && Creating(t.threads[i], t.threads[i].token)
      ensures !Revoking(t.threads[j], t.threads[i].token)
    {
      assert i in s.threads ==> Fine(s, i, s.threads[i]);
      assert j in s.threads ==> Fine(s, j, s.threads[j]);
    }
  }

  lemma CleanKeepsInv(s: State, a: Action)
    requires Inv(s) && Enabled(s, a) && (a.CleanCache? || a.CleanStore? || a.Later? || a.Restart?)
    ensures Inv(Next(s, a))
  {
  }

  lemma NextKeepsInv(s: State, a: Action)
    requires Inv(s) && Enabled(s, a)
    ensures Inv(Next(s, a))
  {
    hide Inv, Step, StepEnabled;
    match a
    case Progress(id, answer) => StepKeepsInv(s, id, answer);
    case StartValidate(_, _) => StartKeepsInv(s, a);
    case StartRevoke(_, _) => StartKeepsInv(s, a);
    case StartCreate(_, _, _) => StartKeepsInv(s, a);
    case _ => CleanKeepsInv(s, a);
  }

  ghost predicate Follows(s: State, t: State) {
    exists a: Action :: Enabled(s, a) && t == Next(s, a)
  }

  ghost predicate Run(trace: seq<State>) {
    |trace| > 0 && Initial(trace[0]) && forall i :: 0 < i < |trace| ==> Follows(trace[i - 1], trace[i])
  }

  lemma {:induction false} RunKeepsInv(trace: seq<State>)
    requires Run(trace)
    ensures Inv(trace[|trace| - 1])
  {
    hide Inv, Enabled, Next;
    if |trace| == 1 {
      InitialInv(trace[0]);
    } else {
      var shorter := trace[..|trace| - 1];
      assert forall i :: 0 < i < |shorter| ==> Follows(trace[i - 1], trace[i]);
      RunKeepsInv(shorter);
      var s, t := trace[|trace| - 2], trace[|trace| - 1];
      assert Follows(s, t);
      var a: Action :| Enabled(s, a) && t == Next(s, a);
      NextKeepsInv(s, a);
    }
  }

  lemma InitialInv(s: State)
    requires Initial(s)
    ensures Inv(s)
  {
  }

  lemma {:induction false} RevokedForever(trace: seq<State>, i: nat, t: Token)
    requires Run(trace) && i < |trace| && t in trace[i].revoked
    ensures t in trace[|trace| - 1].revoked
  {
    hide Enabled, Next, Initial;
    if i < |trace| - 1 {
      var shorter := trace[..|trace| - 1];
      assert forall i :: 0 < i < |shorter| ==> Follows(trace[i - 1], trace[i]);
      RevokedForever(shorter, i, t);
      var s, u := trace[|trace| - 2], trace[|trace| - 1];
      assert Follows(s, u);
      var a: Action :| Enabled(s, a) && u == Next(s, a);
      RevokedGrows(s, a);
    }
  }

  lemma RevokedGrows(s: State, a: Action)
    requires Enabled(s, a)
    ensures s.revoked <= Next(s, a).revoked
  {
  }

  /** No resurrection: once a revocation has succeeded the token is in neither the cache nor the store, at any later
      moment of any interleaving, and no validation that started after it says yes. */
  lemma NoResurrection(trace: seq<State>, i: nat, t: Token)
    requires Run(trace) && i < |trace| && t in trace[i].revoked
    ensures var s := trace[|trace| - 1];
            t !in s.cache && !InStore(s, t)
            && forall id ::
                 id in s.threads && s.threads[id].Answered? && s.threads[id].token == t && s.threads[id].late ==>
                   !s.threads[id].valid
  {
    RunKeepsInv(trace);
    RevokedForever(trace, i, t);
    var s := trace[|trace| - 1];
    forall id | id in s.threads && s.threads[id].Answered? && s.threads[id].token == t && s.threads[id].late
      ensures !s.threads[id].valid
    {
      assert Fine(s, id, s.threads[id]);
    }
  }

  /** The gate is what makes it so: without it a refill under way puts the session back after the revocation
      succeeded. */
  lemma WithoutTheGateASessionReturns(t: Token, session: Session)
    requires t != "" && !Expired(session, 0)
    ensures var s := State(map[], Some(map[t := session]), None, map[1 := Reading(t, false), 2 := RevokeStored(t)], 0,
            {t}, {});
            var found := Step(s, 1, Answer(true, t));
            var revoked := Step(Step(found, 2, Answer(true, t)), 2, Answer(true, t));
            revoked.threads[2] == RevokeDone(t, true) && t in Step(revoked, 1, Answer(true, t)).cache
            && !Inv(s)
  {
    var s := State(map[], Some(map[t := session]), None, map[1 := Reading(t, false), 2 := RevokeStored(t)], 0, {t}, {});
    assert Holds(s.threads[1]) && !Fine(s, 1, s.threads[1]);
  }

  /** Nor may a token be revoked while it is still being created: its creation would cache it afterwards. */
  lemma RevokedDuringCreationReturns(t: Token, session: Session)
    requires t != ""
    ensures var s := State(map[], None, None, map[1 := CreateCached(t, session)], 0, {t}, {});
            var waiting := s.(threads := s.threads[2 := RevokeWaiting(t)]);
            var go := Answer(true, t);
            var revoked := Step(Step(Step(waiting, 2, go), 2, go), 2, go);
            !Enabled(s, StartRevoke(2, t)) && t in revoked.revoked && t in Step(revoked, 1, go).cache
  {
    var s := State(map[], None, None, map[1 := CreateCached(t, session)], 0, {t}, {});
    assert Creating(s.threads[1], t);
    var waiting, go := s.(threads := s.threads[2 := RevokeWaiting(t)]), Answer(true, t);
    RevokeAlone(waiting, 2, t);
    var revoked := Step(Step(Step(waiting, 2, go), 2, go), 2, go);
    assert revoked.threads[1] == CreateCached(t, session) && revoked.cache == map[];
    hide StepEnabled;
  }

  // A revocation that nobody disturbs.
  lemma RevokeAlone(s: State, id: nat, t: Token)
    requires id in s.threads && s.threads[id] == RevokeWaiting(t) && s.gate.None?
    ensures var go := Answer(true, t);
            StepEnabled(s, id, go) && StepEnabled(Step(s, id, go), id, go)
                && StepEnabled(Step(Step(s, id, go), id, go), id, go)
            && Step(Step(Step(s, id, go), id, go), id, go)
            == s.(stored := StoreWithout(s.stored, t), cache := s.cache - {t}, revoked := s.revoked + {t},
                  threads := s.threads[id := RevokeDone(t, true)])
  {
  }

  // -------------------------------------------------------------------------------------------
  // The object, one request at a time
  // -------------------------------------------------------------------------------------------

  /** The steps of one request, nobody else moving. */
  ghost predicate Alone(s: State, id: nat, answers: seq<Answer>, t: State)
    decreases |answers|
  {
    if answers == [] then s == t
    else StepEnabled(s, id, answers[0]) && Alone(Step(s, id, answers[0]), id, answers[1..], t)
  }

  ghost predicate Completes(s: State, id: nat, t: State) {
    exists answers :: Alone(s, id, answers, t)
  }

  lemma StartsAlone(s: State, id: nat)
    ensures Completes(s, id, s)
  {
    assert Alone(s, id, [], s);
  }

  lemma {:induction false} AloneThen(s: State, id: nat, answers: seq<Answer>, t: State, a: Answer)
    requires Alone(s, id, answers, t) && StepEnabled(t, id, a)
    ensures Alone(s, id, answers + [a], Step(t, id, a))
    decreases |answers|
  {
    hide Step, StepEnabled;
    var longer := answers + [a];
    if answers == [] {
      assert longer[1..] == [];
      assert Alone(Step(s, id, a), id, longer[1..], Step(t, id, a));
    } else {
      AloneThen(Step(s, id, answers[0]), id, answers[1..], t, a);
      assert longer[1..] == answers[1..] + [a];
    }
  }

  lemma Then(s: State, id: nat, t: State, a: Answer)
    requires Completes(s, id, t) && StepEnabled(t, id, a)
    ensures Completes(s, id, Step(t, id, a))
  {
    hide Step, StepEnabled, Alone;
    var answers: seq<Answer> :| Alone(s, id, answers, t);
    AloneThen(s, id, answers, t, a);
  }

  // A request has moved to `pc`.
  function Moved(s: State, id: nat, pc: Pc): State {
    s.(threads := s.threads[id := pc])
  }

  /** What a validation alone does, by the answers it gets. */
  lemma ValidationAlone(s: State, id: nat, t: Token, late: bool, free: bool, readOk: bool, deleteOk: bool)
    requires id in s.threads && s.threads[id] == Lookup(t, late) && (free ==> s.gate.None?)
    ensures
      var removed := if deleteOk then StoreWithout(s.stored, t) else s.stored;
      Completes(s, id,
        if t in s.cache then
          if Expired(s.cache[t], s.now) then
              Moved(s.(cache := s.cache - {t}, stored := removed), id, Answered(t, false, late))
          else Moved(s, id, Answered(t, true, late))
        else if !free || !readOk || s.stored.None? || t !in s.stored.value then Moved(s, id, Answered(t, false, late))
        else if Expired(s.stored.value[t], s.now) then Moved(s.(stored := removed), id, Answered(t, false, late))
        else Moved(s.(cache := s.cache[t := s.stored.value[t]]), id, Answered(t, true, late)))
  {
    hide Completes, StoreWithout, Expired;
    var yes := Answer(true, t);
    StartsAlone(s, id);
    Then(s, id, s, yes);
    if t in s.cache {
      HitAlone(s, id, t, late, deleteOk);
    } else {
      var waiting := Moved(s, id, Waiting(t, late));
      assert Step(s, id, yes) == waiting;
      Then(s, id, waiting, Answer(free, t));
      if free {
        assert Step(waiting, id, Answer(free, t)) == Moved(s, id, Reading(t, late)).(gate := Some(id));
        hide Step, Moved;
        RefillAlone(s, id, t, late, readOk, deleteOk);
      } else {
        assert Step(waiting, id, Answer(free, t)) == Moved(s, id, Answered(t, false, late));
      }
    }
  }

  // The rest of a validation that finds its token in the cache.
  lemma HitAlone(s: State, id: nat, t: Token, late: bool, deleteOk: bool)
    requires id in s.threads && t in s.cache
    requires s.threads[id] == Lookup(t, late) && Completes(s, id, Step(s, id, Answer(true, t)))
    ensures
      var removed := if deleteOk then StoreWithout(s.stored, t) else s.stored;
      Completes(s, id,
        if Expired(s.cache[t], s.now) then
            Moved(s.(cache := s.cache - {t}, stored := removed), id, Answered(t, false, late))
        else Moved(s, id, Answered(t, true, late)))
  {
    hide Completes, StoreWithout, Expired;
    var yes := Answer(true, t);
    var hit := Moved(s, id, Hit(t, s.cache[t], late));
    assert Step(s, id, yes) == hit;
    Then(s, id, hit, yes);
    if Expired(s.cache[t], s.now) {
      var dropping := Moved(s, id, Dropping(t, late));
      assert Step(hit, id, yes) == dropping;
      Then(s, id, dropping, yes);
      var dropped := Moved(s.(cache := s.cache - {t}), id, DropStored(t, late));
      assert Step(dropping, id, yes) == dropped;
      Then(s, id, dropped, Answer(deleteOk, t));
      assert Step(dropped, id, Answer(deleteOk, t)).threads == s.threads[id := Answered(t, false, late)];
    } else {
      assert Step(hit, id, yes) == Moved(s, id, Answered(t, true, late));
    }
  }

  // The rest of a validation that holds the gate.
  lemma RefillAlone(s: State, id: nat, t: Token, late: bool, readOk: bool, deleteOk: bool)
    requires id in s.threads && s.gate.None?
    requires Completes(s, id, Moved(s, id, Reading(t, late)).(gate := Some(id)))
    ensures
      var removed := if deleteOk then StoreWithout(s.stored, t) else s.stored;
      Completes(s, id,
        if !readOk || s.stored.None? || t !in s.stored.value then Moved(s, id, Answered(t, false, late))
        else if Expired(s.stored.value[t], s.now) then Moved(s.(stored := removed), id, Answered(t, false, late))
        else Moved(s.(cache := s.cache[t := s.stored.value[t]]), id, Answered(t, true, late)))
  {
    hide Completes, StoreWithout, Expired;
    var reading := Moved(s, id, Reading(t, late)).(gate := Some(id));
    Then(s, id, reading, Answer(readOk, t));
    if readOk && s.stored.Some? && t in s.stored.value {
      var found := Moved(s, id, Found(t, s.stored.value[t], late)).(gate := Some(id));
      assert Step(reading, id, Answer(readOk, t)) == found;
      Then(s, id, found, Answer(deleteOk, t));
      assert Step(found, id, Answer(deleteOk, t)).threads ==
             s.threads[id := Step(found, id, Answer(deleteOk, t)).threads[id]];
    } else {
      assert Step(reading, id, Answer(readOk, t)) == Moved(s, id, Answered(t, false, late));
    }
  }

  /** What a revocation alone does. */
  lemma RevocationAlone(s: State, id: nat, t: Token, free: bool, deleteOk: bool)
    requires id in s.threads && s.threads[id] == RevokeWaiting(t) && (free ==> s.gate.None?)
    ensures
      Completes(s, id,
        if free && (deleteOk || s.stored.None?) then
          Moved(s.(cache := s.cache - {t}, stored := StoreWithout(s.stored, t), revoked := s.revoked + {t}), id,
              RevokeDone(t, true))
        else Moved(s, id, RevokeDone(t, false)))
  {
    hide Completes, StoreWithout;
    StartsAlone(s, id);
    Then(s, id, s, Answer(free, t));
    if free {
      var gated := Moved(s, id, RevokeStored(t)).(gate := Some(id));
      assert Step(s, id, Answer(free, t)) == gated;
      Then(s, id, gated, Answer(deleteOk, t));
      if deleteOk || s.stored.None? {
        var removed := Moved(s.(stored := StoreWithout(s.stored, t)), id, RevokeCached(t)).(gate := Some(id));
        assert Step(gated, id, Answer(deleteOk, t)) == removed;
        Then(s, id, removed, Answer(true, t));
        assert Step(removed, id, Answer(true, t)).threads == s.threads[id := RevokeDone(t, true)];
      } else {
        assert Step(gated, id, Answer(deleteOk, t)) == Moved(s, id, RevokeDone(t, false));
      }
    }
  }

  /** What a creation alone does. */
  lemma CreationAlone(s: State, id: nat, t: Token, session: Session, storeOk: bool, deleteOk: bool, oldest: Token)
    requires id in s.threads && s.threads[id] == CreateStored(t, session)
    requires |s.cache| >= MAX_SESSIONS ==> Oldest(s.cache, oldest)
    ensures
      var stored := if storeOk && s.stored.Some? then Some(s.stored.value[t := session]) else s.stored;
      Completes(s, id,
        if |s.cache| >= MAX_SESSIONS then
          Moved(s.(cache := (s.cache - {oldest})[t := session], stored := if deleteOk then StoreWithout(stored, oldest)
              else stored), id, Created(t))
        else Moved(s.(cache := s.cache[t := session], stored := stored), id, Created(t)))
  {
    hide Completes, StoreWithout, Oldest;
    var stored := if storeOk && s.stored.Some? then Some(s.stored.value[t := session]) else s.stored;
    StartsAlone(s, id);
    Then(s, id, s, Answer(storeOk, oldest));
    var written := Moved(s.(stored := stored), id, CreateCached(t, session));
    assert Step(s, id, Answer(storeOk, oldest)) == written;
    Then(s, id, written, Answer(deleteOk, oldest));
    assert Step(written, id, Answer(deleteOk, oldest)).threads == s.threads[id := Created(t)];
  }

  /** The oldest session of a cache, found by looking at all of them. */
  method FindOldest(cache: map<Token, Session>) returns (oldest: Token)
    requires cache != map[]
    ensures Oldest(cache, oldest)
  {
    oldest := Pick(cache.Keys);
    var todo := cache.Keys - {oldest};
    while todo != {}
      invariant todo <= cache.Keys && oldest in cache
      invariant forall u :: u in cache && u !in todo ==> cache[oldest].createdAt <= cache[u].createdAt
    {
      var t := Pick(todo);
      if cache[t].createdAt < cache[oldest].createdAt {
        oldest := t;
      }
      todo := todo - {t};
    }
  }

  class Auth {
    var sessions: map<Token, Session>
    var stored: Option<map<Token, Session>>

    /** Live: cached and not expired, or not cached but stored and not expired. */
    ghost predicate Live(t: Token, now: int)
      reads this
    {
      t != "" && if t in sessions then !Expired(sessions[t], now)
                 else stored.Some? && t in stored.value && !Expired(stored.value[t], now)
    }

    /** Validate: `free` says the gate was obtained in time, `readOk` and `deleteOk` that the store answered. */
    method Validate(t: Token, now: int, free: bool, readOk: bool, deleteOk: bool, ghost s: State, ghost id: nat,
                    ghost late: bool)
        returns (valid: bool)
      requires s.cache == sessions && s.stored == stored && s.now == now && (free ==> s.gate.None?)
      requires id in s.threads && s.threads[id] == if t == "" then Answered(t, false, late) else Lookup(t, late)
      modifies this
      ensures Completes(s, id, Moved(s.(cache := sessions, stored := stored), id, Answered(t, valid, late)))
      ensures valid ==> old(Live(t, now)) && t in sessions && now <= sessions[t].expiresAt
      ensures t in old(sessions) && t != "" ==> (valid <==> now <= old(sessions)[t].expiresAt)
      ensures t !in old(sessions) && t != "" && free && readOk && old(stored).Some? ==>
                (valid <==> t in old(stored).value && now <= old(stored).value[t].expiresAt)
      ensures old(Live(t, now)) && (t in old(sessions) || (free && readOk)) ==> valid
      ensures var cached := t in old(sessions);
              var outdated := if cached then now > old(sessions)[t].expiresAt
                              else free && readOk && old(stored).Some? && t in old(stored).value
                                   && now > old(stored).value[t].expiresAt;
              && sessions == (if t != "" && cached && outdated then old(sessions) - {t}
                              else if !cached && valid then old(sessions)[t := old(stored).value[t]] else old(sessions))
              && stored == if t != "" && outdated && deleteOk then StoreWithout(old(stored), t) else old(stored)
    {
      hide Completes;
      StartsAlone(s, id);
      if t == "" {
        assert Moved(s, id, s.threads[id]) == s;
        return false;
      }
      ValidationAlone(s, id, t, late, free, readOk, deleteOk);
      if t in sessions {
        if Expired(sessions[t], now) {
          sessions := sessions - {t};
          if deleteOk {
            stored := StoreWithout(stored, t);
          }
          return false;
        }
        return true;
      }
      if !free || stored.None? || !readOk || t !in stored.value {
        return false;
      }
      var found := stored.value[t];
      if Expired(found, now) {
        if deleteOk {
          stored := StoreWithout(stored, t);
        }
        return false;
      }
      sessions := sessions[t := found];
      return true;
    }

    /** RevokeSession: success means gone from both, failure leaves the session as it was. */
    method RevokeSession(t: Token, free: bool, deleteOk: bool, ghost s: State, ghost id: nat) returns (ok: bool)
      requires s.cache == sessions && s.stored == stored && (free ==> s.gate.None?)
      requires id in s.threads && s.threads[id] == if t == "" then RevokeDone(t, true) else RevokeWaiting(t)
      modifies this
      ensures Completes(s, id, Moved(s.(cache := sessions, stored := stored, revoked := if ok && t != "" then s.revoked
              + {t} else s.revoked), id, RevokeDone(t, ok)))
      ensures ok <==> t == "" || (free && (deleteOk || old(stored).None?))
      ensures ok && t != "" ==> sessions == old(sessions) - {t} && stored == StoreWithout(old(stored), t)
      ensures !ok || t == "" ==> sessions == old(sessions) && stored == old(stored)
    {
      hide Completes;
      StartsAlone(s, id);
      if t == "" {
        assert Moved(s, id, s.threads[id]) == s;
        return true;
      }
      RevocationAlone(s, id, t, free, deleteOk);
      if !free {
        return false;
      }
      if stored.Some? {
        if !deleteOk {
          return false;
        }
        stored := StoreWithout(stored, t);
      }
      sessions := sessions - {t};
      return true;
    }

    /** CreateSession: the session is cached, the cache never outgrows its cap, and only an oldest session makes
        room. */
    method CreateSession(t: Token, session: Session, storeOk: bool, deleteOk: bool, ghost s: State, ghost id: nat)
        returns (evicted: Option<Token>)
      requires |sessions| <= MAX_SESSIONS && s.cache == sessions && s.stored == stored
      requires id in s.threads && s.threads[id] == CreateStored(t, session)
      modifies this
      ensures Completes(s, id, Moved(s.(cache := sessions, stored := stored), id, Created(t)))
      ensures t in sessions && sessions[t] == session && |sessions| <= 256
      ensures var added := if storeOk && old(stored).Some? then Some(old(stored).value[t := session]) else old(stored);
              stored == if deleteOk && evicted.Some? then StoreWithout(added, evicted.value) else added
      ensures evicted.None? <==> |old(sessions)| < 256
      ensures evicted.Some? ==>
                evicted.value in old(sessions)
                && forall u :: u in old(sessions) ==>
                   old(sessions)[evicted.value].createdAt <= old(sessions)[u].createdAt
      ensures evicted.None? ==> sessions == old(sessions)[t := session]
      ensures evicted.Some? ==>
                |old(sessions)| == MAX_SESSIONS && Oldest(old(sessions), evicted.value)
                && sessions == (old(sessions) - {evicted.value})[t := session]
    {
      hide Completes, Moved;
      evicted := None;
      if stored.Some? && storeOk {
        stored := Some(stored.value[t := session]);
      }
      if |sessions| >= MAX_SESSIONS {
        var oldest := FindOldest(sessions);
        CreationAlone(s, id, t, session, storeOk, deleteOk, oldest);
        OneFewer(sessions, oldest);
        sessions := sessions - {oldest};
        if deleteOk {
          stored := StoreWithout(stored, oldest);
        }
        evicted := Some(oldest);
      } else {
        CreationAlone(s, id, t, session, storeOk, deleteOk, "");
      }
      OneMore(sessions, t, session);
      sessions := sessions[t := session];
    }

    lemma OneFewer(sessions: map<Token, Session>, oldest: Token)
      requires Oldest(sessions, oldest)
      ensures |sessions - {oldest}| == |sessions| - 1
    {
      assert (sessions - {oldest}).Keys == sessions.Keys - {oldest};
    }

    lemma OneMore(sessions: map<Token, Session>, t: Token, session: Session)
      ensures |sessions[t := session]| <= |sessions| + 1
    {
      assert (sessions[t := session]).Keys == sessions.Keys + {t};
    }

    /** CleanupExpired: exactly the expired sessions go. */
    method CleanupExpired(now: int, storeOk: bool)
      modifies this
      ensures sessions == Unexpired(old(sessions), now)
      ensures forall t :: t in sessions <==> t in old(sessions) && now <= old(sessions)[t].expiresAt
      ensures forall t :: t in sessions ==> sessions[t] == old(sessions)[t]
      ensures stored == if storeOk && old(stored).Some? then Some(Unexpired(old(stored).value, now)) else old(stored)
    {
      var todo := sessions.Keys;
      while todo != {}
        invariant todo <= old(sessions).Keys && stored == old(stored)
        invariant sessions == map t | t in old(sessions)
                  && (t in todo || !Expired(old(sessions)[t], now)) :: old(sessions)[t]
      {
        var t := Pick(todo);
        if Expired(sessions[t], now) {
          sessions := sessions - {t};
        }
        todo := todo - {t};
      }
      if stored.Some? && storeOk {
        stored := Some(Unexpired(stored.value, now));
      }
    }
  }
}
