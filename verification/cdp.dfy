/**
 * Content-deletion-policy enforcement: removing everything recorded about a
 * thing, cascading that over every thing a departed user authored, and the
 * batched sweep over the candidate list that decides who has departed.
 */
module CdpEnforcement {
  import opened Constants
  import opened Store

  /** What the account lookup did: returned an account, returned nothing, or threw. */
  datatype ProbeResult = Found | NotFound | Threw

  /** A user is active exactly when the lookup returns an account; a throw means inactive. */
  function IsUserActive(p: ProbeResult): (r: bool)
    ensures r <==> p.Found?
    ensures p.Threw? ==> !r
  {
    match p
    case Found => true
    case NotFound => false
    case Threw => false
  }

  /** The record keys of the given published posts. */
  function AuditKeys(posts: set<string>): (ks: set<Key>)
    ensures forall k :: k in ks <==> k.AuditKey? && k.post in posts
  {
    set p | p in posts :: AuditKey(p)
  }

  /** Forgets a thing: its cached snapshot, its published-record set and every record named there. */
  function EnforceThing(s: Store, thing: string): (r: Store)
    ensures r.cache == s.cache - {thing}
    ensures ZGet(r, ModActionsKey(thing)) == map[]
    ensures forall k :: k != ModActionsKey(thing) ==> ZGet(r, k) == ZGet(s, k)
    ensures r.hashes == s.hashes - AuditKeys(Members(s, ModActionsKey(thing)))
    ensures r.strings == s.strings
    ensures Members(s, ModActionsKey(thing)) == {} ==> r == Uncache(s, thing)
  {
    var s1 := Uncache(s, thing);
    var posts := Members(s1, ModActionsKey(thing));
    if posts == {} then
      assert ZGet(s1, ModActionsKey(thing)) == map[];
      assert AuditKeys(posts) == {};
      assert s1.hashes - {} == s1.hashes;
      s1
    else
      var s2 := ZDel(s1, ModActionsKey(thing));
      HDelAll(s2, AuditKeys(posts))
  }

  /** Every thing some user in `users` is tracked as having authored. */
  ghost function ThingsOf(s: Store, users: set<string>): set<string> {
    set u, t | u in users && t in Members(s, UserKey(u)) :: t
  }

  /** Every published record filed under one of `things`. */
  ghost function RecordsOf(s: Store, things: set<string>): set<string> {
    set t, p | t in things && p in Members(s, ModActionsKey(t)) :: p
  }

  /** The sorted sets a cascade over `users` and `things` deletes. */
  predicate Dropped(k: Key, users: set<string>, things: set<string>) {
    (k.UserKey? && k.user in users) || (k.ModActionsKey? && k.thing in things)
  }

  ghost predicate ZSetsCleared(s: Store, r: Store, users: set<string>, things: set<string>) {
    forall k :: ZGet(r, k) == if Dropped(k, users, things) then map[] else ZGet(s, k)
  }

  /**
   * `r` is `s` with the tracking sets of `users` gone, the record sets of
   * `things` gone, every record those sets named gone, the snapshots of
   * `things` gone, and nothing else changed.
   */
  ghost predicate CascadeState(s: Store, r: Store, users: set<string>, things: set<string>) {
    && ZSetsCleared(s, r, users, things)
    && r.hashes == s.hashes - AuditKeys(RecordsOf(s, things))
    && r.strings == s.strings
    && r.cache == s.cache - things
  }

  /** The complete cascade for `users`: every thing they authored is forgotten. */
  ghost predicate Cascaded(s: Store, r: Store, users: set<string>) {
    CascadeState(s, r, users, ThingsOf(s, users))
  }

  lemma MapMinusTwice<K, V>(m: map<K, V>, a: set<K>, b: set<K>)
    ensures (m - a) - b == m - (a + b)
  {
  }

  lemma AuditKeysUnion(a: set<string>, b: set<string>)
    ensures AuditKeys(a + b) == AuditKeys(a) + AuditKeys(b)
  {
  }

  lemma RecordsOfUnion(s: Store, a: set<string>, b: set<string>)
    ensures RecordsOf(s, a + b) == RecordsOf(s, a) + RecordsOf(s, b)
  {
    forall p | p in RecordsOf(s, a + b) ensures p in RecordsOf(s, a) + RecordsOf(s, b) {
      var t :| t in a + b && p in Members(s, ModActionsKey(t));
      if t in a {
        assert p in RecordsOf(s, a);
      } else {
        assert p in RecordsOf(s, b);
      }
    }
  }

  lemma RecordsOfSingle(s: Store, t: string)
    ensures RecordsOf(s, {t}) == Members(s, ModActionsKey(t))
  {
    forall p | p in Members(s, ModActionsKey(t)) ensures p in RecordsOf(s, {t}) {
    }
  }

  lemma RecordsOfAgree(a: Store, b: Store, things: set<string>)
    requires forall t :: t in things ==> Members(a, ModActionsKey(t)) == Members(b, ModActionsKey(t))
    ensures RecordsOf(a, things) == RecordsOf(b, things)
  {
    forall p | p in RecordsOf(a, things) ensures p in RecordsOf(b, things) {
      var t :| t in things && p in Members(a, ModActionsKey(t));
      assert p in Members(b, ModActionsKey(t));
    }
    forall p | p in RecordsOf(b, things) ensures p in RecordsOf(a, things) {
      var t :| t in things && p in Members(b, ModActionsKey(t));
      assert p in Members(a, ModActionsKey(t));
    }
  }

  lemma ThingsOfUnion(s: Store, a: set<string>, b: set<string>)
    ensures ThingsOf(s, a + b) == ThingsOf(s, a) + ThingsOf(s, b)
  {
    forall t | t in ThingsOf(s, a + b) ensures t in ThingsOf(s, a) + ThingsOf(s, b) {
      var u :| u in a + b && t in Members(s, UserKey(u));
      if u in a {
        assert t in ThingsOf(s, a);
      } else {
        assert t in ThingsOf(s, b);
      }
    }
  }

  lemma ThingsOfSingle(s: Store, u: string)
    ensures ThingsOf(s, {u}) == Members(s, UserKey(u))
  {
    forall t | t in Members(s, UserKey(u)) ensures t in ThingsOf(s, {u}) {
    }
  }

  lemma ThingsOfAgree(a: Store, b: Store, users: set<string>)
    requires forall u :: u in users ==> Members(a, UserKey(u)) == Members(b, UserKey(u))
    ensures ThingsOf(a, users) == ThingsOf(b, users)
  {
    forall t | t in ThingsOf(a, users) ensures t in ThingsOf(b, users) {
      var u :| u in users && t in Members(a, UserKey(u));
      assert t in Members(b, UserKey(u));
    }
    forall t | t in ThingsOf(b, users) ensures t in ThingsOf(a, users) {
      var u :| u in users && t in Members(b, UserKey(u));
      assert t in Members(a, UserKey(u));
    }
  }

  /** One more thing forgotten extends a cascade by that thing. */
  lemma {:induction false} CascadeStep(s: Store, r: Store, users: set<string>, things: set<string>, t: string)
    requires CascadeState(s, r, users, things)
    ensures CascadeState(s, EnforceThing(r, t), users, things + {t})
  {
    var r' := EnforceThing(r, t);
    var k := ModActionsKey(t);
    assert ZGet(r, k) == if t in things then map[] else ZGet(s, k);
    var m := Members(r, k);
    assert ZSetsCleared(s, r', users, things + {t}) by {
      forall k' ensures ZGet(r', k') == if Dropped(k', users, things + {t}) then map[] else ZGet(s, k') {
        if k' != k {
          assert ZGet(r', k') == ZGet(r, k');
        }
      }
    }
    RecordsOfUnion(s, things, {t});
    RecordsOfSingle(s, t);
    if t in things {
      assert m == {};
      assert things + {t} == things;
      assert AuditKeys(m) == {};
      assert r'.hashes == r.hashes - {};
    } else {
      assert m == Members(s, k);
      AuditKeysUnion(RecordsOf(s, things), m);
      MapMinusTwice(s.hashes, AuditKeys(RecordsOf(s, things)), AuditKeys(m));
    }
    MapMinusTwice(s.cache, things, {t});
  }

  /**
   * Forgets a departed user: deletes their tracking set, then forgets every
   * thing listed in it. With nothing tracked it changes nothing.
   */
  method EnforceContentDeletionPolicyForUser(s: Store, user: string) returns (r: Store)
    ensures Members(s, UserKey(user)) == {} ==> r == s
    ensures Cascaded(s, r, {user})
  {
    var things := Members(s, UserKey(user));
    ThingsOfSingle(s, user);
    if things == {} {
      NothingTrackedCascade(s, user);
      return s;
    }
    CascadeStart(s, user);
    r := ForgetThings(s, ZDel(s, UserKey(user)), {user}, {}, things);
    assert {} + things == things;
  }

  /** Forgets each of `remaining` in turn, extending a cascade that has forgotten `done`. */
  method ForgetThings(s: Store, r0: Store, users: set<string>, done: set<string>, remaining: set<string>)
    returns (r: Store)
    requires CascadeState(s, r0, users, done)
    ensures CascadeState(s, r, users, done + remaining)
    decreases |remaining|
  {
    if remaining == {} {
      SameThings(s, r0, users, done, done + remaining);
      return r0;
    }
    var t :| t in remaining;
    CascadeStep(s, r0, users, done, t);
    r := ForgetThings(s, EnforceThing(r0, t), users, done + {t}, remaining - {t});
    MoveOne(done, remaining, t);
    SameThings(s, r, users, done + {t} + (remaining - {t}), done + remaining);
  }

  lemma MoveOne(done: set<string>, remaining: set<string>, t: string)
    requires t in remaining
    ensures done + {t} + (remaining - {t}) == done + remaining
  {
  }

  lemma SameThings(s: Store, r: Store, users: set<string>, a: set<string>, b: set<string>)
    requires a == b && CascadeState(s, r, users, a)
    ensures CascadeState(s, r, users, b)
  {
  }

  lemma RecordsOfNone(s: Store, things: set<string>)
    requires forall t :: t in things ==> Members(s, ModActionsKey(t)) == {}
    ensures RecordsOf(s, things) == {}
  {
  }

  lemma NothingTrackedCascade(s: Store, user: string)
    requires Members(s, UserKey(user)) == {}
    ensures Cascaded(s, s, {user})
  {
    ThingsOfSingle(s, user);
    assert ZGet(s, UserKey(user)) == map[];
    RecordsOfNone(s, {});
    assert AuditKeys({}) == {};
    assert s.hashes - {} == s.hashes;
    assert s.cache - {} == s.cache;
  }

  lemma CascadeStart(s: Store, user: string)
    ensures CascadeState(s, ZDel(s, UserKey(user)), {user}, {})
  {
    RecordsOfNone(s, {});
    assert AuditKeys({}) == {};
    assert s.hashes - {} == s.hashes;
    assert s.cache - {} == s.cache;
  }

  /** Whatever was tracked for a user is gone after the cascade, so running it again changes nothing. */
  lemma CascadeEmptiesTrackingSet(s: Store, r: Store, user: string)
    requires Cascaded(s, r, {user})
    ensures Members(r, UserKey(user)) == {}
  {
    assert ZGet(r, UserKey(user)) == map[];
  }

  /** After a cascade no record filed under any of the users' things remains. */
  lemma CascadeIsComplete(s: Store, r: Store, users: set<string>, u: string, t: string, p: string)
    requires Cascaded(s, r, users)
    requires u in users && t in Members(s, UserKey(u)) && p in Members(s, ModActionsKey(t))
    ensures AuditKey(p) !in r.hashes
    ensures Members(r, ModActionsKey(t)) == {} && Members(r, UserKey(u)) == {}
    ensures t !in r.cache
  {
    assert t in ThingsOf(s, users);
    assert p in RecordsOf(s, ThingsOf(s, users));
    assert ZGet(r, ModActionsKey(t)) == map[];
    assert ZGet(r, UserKey(u)) == map[];
  }

  /**
   * Cascading one more user on top of a cascade for `users` gives the cascade
   * for both: what the earlier users already removed is simply not found again.
   */
  lemma {:induction false} CascadeCompose(s: Store, r: Store, r': Store, users: set<string>, u: string)
    requires Cascaded(s, r, users)
    requires Cascaded(r, r', {u})
    ensures Cascaded(s, r', users + {u})
  {
    var T := ThingsOf(s, users);
    var Tu := ThingsOf(r, {u});
    ComposeThings(s, r, users, u);
    ComposeZSets(s, r, r', users, T, u, Tu);
    ComposeRecords(s, r, users, Tu);
    AuditKeysUnion(RecordsOf(s, T), RecordsOf(r, Tu));
    MapMinusTwice(s.hashes, AuditKeys(RecordsOf(s, T)), AuditKeys(RecordsOf(r, Tu)));
    MapMinusTwice(s.cache, T, Tu);
  }

  /** The things of one more user, read after a cascade, add to the things already cascaded. */
  lemma ComposeThings(s: Store, r: Store, users: set<string>, u: string)
    requires ZSetsCleared(s, r, users, ThingsOf(s, users))
    ensures ThingsOf(s, users + {u}) == ThingsOf(s, users) + ThingsOf(r, {u})
  {
    var T := ThingsOf(s, users);
    assert ZGet(r, UserKey(u)) == if u in users then map[] else ZGet(s, UserKey(u));
    ThingsOfSingle(r, u);
    ThingsOfSingle(s, u);
    ThingsOfUnion(s, users, {u});
    if u in users {
      forall t | t in Members(s, UserKey(u)) ensures t in T {
      }
    }
  }

  /** Two cascades in a row clear the sorted sets of both. */
  lemma ComposeZSets(s: Store, r: Store, r': Store, users: set<string>, T: set<string>, u: string, Tu: set<string>)
    requires ZSetsCleared(s, r, users, T)
    requires ZSetsCleared(r, r', {u}, Tu)
    ensures ZSetsCleared(s, r', users + {u}, T + Tu)
  {
    forall k ensures ZGet(r', k) == if Dropped(k, users + {u}, T + Tu) then map[] else ZGet(s, k) {
      assert ZGet(r', k) == if Dropped(k, {u}, Tu) then map[] else ZGet(r, k);
      assert ZGet(r, k) == if Dropped(k, users, T) then map[] else ZGet(s, k);
    }
  }

  /** The records of more things, read after a cascade, add to the records already removed. */
  lemma ComposeRecords(s: Store, r: Store, users: set<string>, Tu: set<string>)
    requires ZSetsCleared(s, r, users, ThingsOf(s, users))
    ensures RecordsOf(s, ThingsOf(s, users) + Tu) == RecordsOf(s, ThingsOf(s, users)) + RecordsOf(r, Tu)
  {
    var T := ThingsOf(s, users);
    var newly := Tu - T;
    var again := Tu * T;
    assert Tu == newly + again;
    assert T + Tu == T + newly;
    forall t | t in Tu
      ensures Members(r, ModActionsKey(t)) == if t in T then {} else Members(s, ModActionsKey(t))
    {
      assert ZGet(r, ModActionsKey(t)) == if Dropped(ModActionsKey(t), users, T) then map[] else ZGet(s, ModActionsKey(t));
    }
    RecordsOfAgree(r, s, newly);
    RecordsOfNone(r, again);
    RecordsOfUnion(r, newly, again);
    RecordsOfUnion(s, T, newly);
  }

  /** The first `CdpEnforcementBatchSize` entries of the due list are probed in one run. */
  function Batch(due: seq<string>): (b: seq<string>)
    ensures |b| <= CdpEnforcementBatchSize && |b| <= |due| && b == due[..|b|]
    ensures |due| <= CdpEnforcementBatchSize ==> b == due
  {
    if |due| <= CdpEnforcementBatchSize then due else due[..CdpEnforcementBatchSize]
  }

  function Candidates(s: Store): ZSet {
    ZGet(s, CdpUserList)
  }

  /** Candidates whose next check is due by `now`. */
  ghost function Due(s: Store, now: nat): set<string> {
    set u | u in Candidates(s) && Candidates(s)[u] <= now
  }

  /**
   * `due` is the list the store returns for a score range up to `now`: each due
   * candidate once, in ascending order of due time.
   */
  ghost predicate DueListing(s: Store, now: nat, due: seq<string>) {
    && Enumerates(due, Due(s, now))
    && (forall i, j :: 0 <= i < j < |due| ==> Candidates(s)[due[i]] <= Candidates(s)[due[j]])
  }

  ghost function ActiveIn(batch: seq<string>, probe: string -> ProbeResult): set<string> {
    set u | u in batch && IsUserActive(probe(u))
  }

  ghost function InactiveIn(batch: seq<string>, probe: string -> ProbeResult): set<string> {
    set u | u in batch && !IsUserActive(probe(u))
  }

  /** The candidate list after a run: active users re-scored to `renewAt`, inactive ones removed. */
  ghost function Requeued(list: ZSet, batch: seq<string>, renewAt: nat, probe: string -> ProbeResult): ZSet {
    map u | u in list.Keys - InactiveIn(batch, probe) :: if u in ActiveIn(batch, probe) then renewAt else list[u]
  }

  /** The store with the candidate list replaced by its requeued form. */
  ghost function RequeuedStore(s: Store, batch: seq<string>, renewAt: nat, probe: string -> ProbeResult): Store {
    s.(zsets := s.zsets[CdpUserList := Requeued(Candidates(s), batch, renewAt, probe)])
  }

  /** Probes every user of the batch in order, splitting it into active and inactive users. */
  method ProbeBatch(batch: seq<string>, probe: string -> ProbeResult) returns (active: seq<string>, inactive: seq<string>)
    ensures forall u :: u in active <==> u in ActiveIn(batch, probe)
    ensures forall u :: u in inactive <==> u in InactiveIn(batch, probe)
  {
    active := [];
    inactive := [];
    for i := 0 to |batch|
      invariant forall u :: u in active <==> u in batch[..i] && IsUserActive(probe(u))
      invariant forall u :: u in inactive <==> u in batch[..i] && !IsUserActive(probe(u))
    {
      assert batch[..i + 1] == batch[..i] + [batch[i]];
      if IsUserActive(probe(batch[i])) {
        active := active + [batch[i]];
      } else {
        inactive := inactive + [batch[i]];
      }
    }
    assert batch[..|batch|] == batch;
  }

  /** Re-adds each active user with score `renewAt`, leaving every other key alone. */
  method Requeue(s: Store, active: seq<string>, renewAt: nat) returns (r: Store)
    ensures forall u :: u in Candidates(r) <==> u in Candidates(s) || u in active
    ensures forall u :: u in Candidates(r) ==> Candidates(r)[u] == if u in active then renewAt else Candidates(s)[u]
    ensures forall k :: k != CdpUserList ==> ZGet(r, k) == ZGet(s, k)
    ensures r.hashes == s.hashes && r.strings == s.strings && r.cache == s.cache
  {
    r := s;
    for i := 0 to |active|
      invariant forall u :: u in Candidates(r) <==> u in Candidates(s) || u in active[..i]
      invariant forall u :: u in Candidates(r) ==> Candidates(r)[u] == if u in active[..i] then renewAt else Candidates(s)[u]
      invariant forall k :: k != CdpUserList ==> ZGet(r, k) == ZGet(s, k)
      invariant r.hashes == s.hashes && r.strings == s.strings && r.cache == s.cache
    {
      assert active[..i + 1] == active[..i] + [active[i]];
      r := ZAdd(r, CdpUserList, active[i], renewAt);
    }
    assert active[..|active|] == active;
  }

  /** Cascades each user of `users` in turn. */
  method CascadeAll(s: Store, users: seq<string>) returns (r: Store)
    ensures Cascaded(s, r, set u | u in users)
  {
    r := s;
    assert ThingsOf(s, {}) == {};
    assert RecordsOf(s, {}) == {};
    for i := 0 to |users|
      invariant Cascaded(s, r, set j | 0 <= j < i :: users[j])
    {
      ghost var before := set j | 0 <= j < i :: users[j];
      var r' := EnforceContentDeletionPolicyForUser(r, users[i]);
      CascadeCompose(s, r, r', before, users[i]);
      r := r';
      assert (set j | 0 <= j < i + 1 :: users[j]) == before + {users[i]};
    }
    assert (set j | 0 <= j < |users| :: users[j]) == set u | u in users;
  }

  /** Cascades only look at what the primitives read. */
  lemma CascadeRespectsSameContents(a: Store, b: Store, r: Store, users: set<string>)
    requires SameContents(a, b)
    requires Cascaded(a, r, users)
    ensures Cascaded(b, r, users)
  {
    assert ThingsOf(a, users) == ThingsOf(b, users) by {
      forall u | u in users ensures Members(a, UserKey(u)) == Members(b, UserKey(u)) {
      }
    }
    var T := ThingsOf(a, users);
    assert RecordsOf(a, T) == RecordsOf(b, T) by {
      forall t | t in T ensures Members(a, ModActionsKey(t)) == Members(b, ModActionsKey(t)) {
      }
    }
  }

  /**
   * One run of the sweep. It reads the due list; when it is empty nothing
   * happens. Otherwise it probes the first batch, re-queues the active users
   * with due time `renewAt`, removes the inactive ones from the candidate list,
   * cascades each of them, and asks for a follow-up run exactly when the due
   * list was longer than a batch.
   */
  method EnforceContentDeletionPolicy(s: Store, due: seq<string>, now: nat, renewAt: nat, probe: string -> ProbeResult)
    returns (r: Store, followUp: bool)
    requires DueListing(s, now, due)
    ensures followUp <==> |due| > CdpEnforcementBatchSize
    ensures |due| == 0 ==> r == s
    ensures Candidates(r) == Requeued(Candidates(s), Batch(due), renewAt, probe)
    ensures Cascaded(RequeuedStore(s, Batch(due), renewAt, probe), r, InactiveIn(Batch(due), probe))
  {
    followUp := |due| > CdpEnforcementBatchSize;
    if |due| == 0 {
      return s, followUp;
    }
    var batch := Batch(due);
    BatchIsDue(s, now, due);
    var active, inactive := ProbeBatch(batch, probe);
    var s1 := ApplyProbes(s, batch, active, inactive, renewAt, probe);
    r := CascadeAll(s1, inactive);
    ghost var want := RequeuedStore(s, batch, renewAt, probe);
    CascadeRespectsSameContents(s1, want, r, InactiveIn(batch, probe));
    CascadeKeepsCandidates(want, r, InactiveIn(batch, probe));
  }

  /** Every user of the batch is a due candidate. */
  lemma BatchIsDue(s: Store, now: nat, due: seq<string>)
    requires DueListing(s, now, due)
    ensures forall i :: 0 <= i < |Batch(due)| ==> Batch(due)[i] in Candidates(s)
  {
    forall i | 0 <= i < |Batch(due)| ensures Batch(due)[i] in Candidates(s) {
      assert Batch(due)[i] == due[i];
    }
  }

  /** Re-queues the active users and takes the inactive ones off the candidate list. */
  method ApplyProbes(s: Store, batch: seq<string>, active: seq<string>, inactive: seq<string>, renewAt: nat,
                     probe: string -> ProbeResult) returns (r: Store)
    requires forall i :: 0 <= i < |batch| ==> batch[i] in Candidates(s)
    requires forall u :: u in active <==> u in ActiveIn(batch, probe)
    requires forall u :: u in inactive <==> u in InactiveIn(batch, probe)
    ensures SameContents(r, RequeuedStore(s, batch, renewAt, probe))
  {
    r := Requeue(s, active, renewAt);
    r := ZRem(r, CdpUserList, set u | u in inactive);
    ghost var want := RequeuedStore(s, batch, renewAt, probe);
    assert Candidates(r) == Candidates(want) by {
      forall u | u in active ensures u in Candidates(s) {
        assert u in batch;
      }
    }
  }

  /** A cascade never touches the candidate list. */
  lemma CascadeKeepsCandidates(s: Store, r: Store, users: set<string>)
    requires Cascaded(s, r, users)
    ensures Candidates(r) == Candidates(s)
  {
    assert !Dropped(CdpUserList, users, ThingsOf(s, users));
  }

  /** Each probed user ends up either re-queued at `renewAt` or off the list; everyone else keeps their due time. */
  lemma RequeuedOutcome(list: ZSet, batch: seq<string>, renewAt: nat, probe: string -> ProbeResult, u: string)
    requires forall i :: 0 <= i < |batch| ==> batch[i] in list
    ensures u in batch && IsUserActive(probe(u)) ==> u in Requeued(list, batch, renewAt, probe) && Requeued(list, batch, renewAt, probe)[u] == renewAt
    ensures u in batch && !IsUserActive(probe(u)) ==> u !in Requeued(list, batch, renewAt, probe)
    ensures u !in batch ==> (u in Requeued(list, batch, renewAt, probe) <==> u in list)
    ensures u !in batch && u in list ==> Requeued(list, batch, renewAt, probe)[u] == list[u]
  {
  }

  /** The batch is drawn from the front of the due list: nobody left waiting was due before anyone probed. */
  lemma BatchIsEarliestDue(s: Store, now: nat, due: seq<string>, u: string, v: string)
    requires DueListing(s, now, due)
    requires u in Batch(due) && v in Due(s, now) && v !in Batch(due)
    ensures Candidates(s)[u] <= Candidates(s)[v]
  {
    var b := Batch(due);
    var i :| 0 <= i < |b| && b[i] == u;
    var j :| 0 <= j < |due| && due[j] == v;
    assert due[i] == u;
    assert forall k :: 0 <= k < |b| ==> due[k] == b[k] != v;
    assert i < |b| <= j;
  }

  /**
   * When re-queued users are next due after `now`, a run shrinks the due set by
   * exactly the batch, so repeated runs drain it.
   */
  lemma SweepDrainsDueSet(s: Store, r: Store, now: nat, renewAt: nat, due: seq<string>, probe: string -> ProbeResult)
    requires DueListing(s, now, due)
    requires Candidates(r) == Requeued(Candidates(s), Batch(due), renewAt, probe)
    requires renewAt > now
    ensures Due(r, now) == Due(s, now) - (set u | u in Batch(due))
    ensures |Due(r, now)| == |Due(s, now)| - |Batch(due)|
  {
    var b := Batch(due);
    var B := set u | u in b;
    forall u ensures u in Due(r, now) <==> u in Due(s, now) - B {
      RequeuedOutcome(Candidates(s), b, renewAt, probe, u);
    }
    assert B <= Due(s, now);
    DistinctCard(b);
  }
}
