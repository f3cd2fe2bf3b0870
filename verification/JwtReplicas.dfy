/** Any number of replicas racing for one Secret, call by call. */
module JwtReplicas {
  import opened Common
  import opened JwtSecret

  const MAX_ATTEMPTS: nat := 10

  datatype Replica = Trying(attempt: nat, stage: Stage) | Ready(key: Key) | Stopped

  datatype System = System(stored: Option<SecretObject>, replicas: map<nat, Replica>)

  /** After an attempt: ready with the key, trying again, or giving up. */
  function Settle(attempt: nat, stage: Stage): Replica {
    if !stage.Finished? then Trying(attempt, stage)
    else if stage.r.Ok? then Ready(stage.r.value)
    else if attempt >= MAX_ATTEMPTS then Stopped
    else Trying(attempt + 1, Getting)
  }

  ghost predicate GetStep(s: System, s': System, id: nat, g: GetAnswer, random: Option<Key>) {
    && id in s.replicas && s.replicas[id].Trying? && s.replicas[id].stage.Getting?
    && CanGet(s.stored, g) && (random.Some? ==> |random.value| == KEY_LENGTH)
    && s' == s.(replicas := s.replicas[id := Settle(s.replicas[id].attempt, AfterGet(g, random))])
  }

  ghost predicate CreateStep(s: System, s': System, id: nat, c: CreateAnswer) {
    && id in s.replicas && s.replicas[id].Trying? && s.replicas[id].stage.Creating?
    && var random := s.replicas[id].stage.random;
       && CanCreate(s.stored, random, c, s'.stored)
       && s'.replicas == s.replicas[id := Settle(s.replicas[id].attempt, AfterCreate(c, random))]
  }

  ghost predicate RereadStep(s: System, s': System, id: nat, g: GetAnswer) {
    && id in s.replicas && s.replicas[id].Trying? && s.replicas[id].stage.Rereading?
    && CanGet(s.stored, g)
    && s' == s.(replicas := s.replicas[id := Settle(s.replicas[id].attempt, AfterReread(g))])
  }

  /** A replica joins, or crashes and starts over. */
  ghost predicate Restart(s: System, s': System, id: nat) {
    s' == s.(replicas := s.replicas[id := Trying(1, Getting)])
  }

  /** A replica shuts down. */
  ghost predicate Shutdown(s: System, s': System, id: nat) {
    id in s.replicas && s' == s.(replicas := s.replicas[id := Stopped])
  }

  ghost predicate Next(s: System, s': System) {
    || (exists id: nat, g: GetAnswer, random: Option<Key> :: GetStep(s, s', id, g, random))
    || (exists id: nat, c: CreateAnswer :: CreateStep(s, s', id, c))
    || (exists id: nat, g: GetAnswer :: RereadStep(s, s', id, g))
    || (exists id: nat :: Restart(s, s', id))
    || (exists id: nat :: Shutdown(s, s', id))
  }

  /** Nothing is assumed about the Secret found at the beginning. */
  ghost predicate Run(run: seq<System>) {
    && run != []
    && run[0].replicas == map[]
    && forall i :: 0 <= i < |run| - 1 ==> Next(run[i], run[i + 1])
  }

  ghost predicate Safe(stored: Option<SecretObject>, r: Replica) {
    && (r.Ready? ==> Holds(stored, r.key))
    && (r.Trying? && r.stage.Creating? ==> |r.stage.random| == KEY_LENGTH)
    && (r.Trying? ==> 1 <= r.attempt <= MAX_ATTEMPTS && !r.stage.Finished?)
  }

  ghost predicate Inv(s: System) {
    forall id :: id in s.replicas ==> Safe(s.stored, s.replicas[id])
  }

  lemma StepKeepsInv(s: System, s': System)
    requires Inv(s) && Next(s, s')
    ensures Inv(s') && Kept(s.stored, s'.stored)
    ensures s.stored.None? && s'.stored.Some? ==> Checked(s'.stored.value).Ok?
  {
    if id: nat, g: GetAnswer, random: Option<Key> :| GetStep(s, s', id, g, random) {
      assert Safe(s.stored, s.replicas[id]);
      assert Safe(s'.stored, s'.replicas[id]);
    } else if id: nat, c: CreateAnswer :| CreateStep(s, s', id, c) {
      assert Safe(s.stored, s.replicas[id]);
      assert Safe(s'.stored, s'.replicas[id]);
    } else if id: nat, g: GetAnswer :| RereadStep(s, s', id, g) {
      assert Safe(s.stored, s.replicas[id]);
      assert Safe(s'.stored, s'.replicas[id]);
    }
  }

  lemma {:induction false} Reachable(run: seq<System>, i: nat, j: nat)
    requires Run(run) && i <= j < |run|
    ensures Inv(run[i]) && Inv(run[j]) && Kept(run[i].stored, run[j].stored)
    ensures run[i].stored.None? && run[j].stored.Some? ==> Checked(run[j].stored.value).Ok?
    decreases j
  {
    if j > 0 {
      Reachable(run, if i < j then i else j - 1, j - 1);
      assert Next(run[j - 1], run[j - 1 + 1]);
      StepKeepsInv(run[j - 1], run[j]);
    }
  }

  ghost predicate HasKey(s: System, id: nat, k: Key) {
    id in s.replicas && s.replicas[id] == Ready(k)
  }

  /**
   Any two replicas that are ever ready, at any two moments of any interleaving, hold the same key
   of at least 32 bytes, and it is the stored one; in particular a replica that restarts comes back
   with the key it had.
   */
  lemma ReplicasAgree(run: seq<System>, i: nat, j: nat, a: nat, b: nat, k: Key, l: Key)
    requires Run(run) && i <= j < |run|
    requires HasKey(run[i], a, k) && HasKey(run[j], b, l)
    ensures k == l && |k| >= 32 && run[j].stored == Some(SecretObject(Some(k)))
  {
    Reachable(run, i, j);
    assert Safe(run[i].stored, run[i].replicas[a]);
    assert Safe(run[j].stored, run[j].replicas[b]);
  }

  /**
   In one step, unless it shuts down or starts over, a replica that is trying goes on with its attempt,
   becomes ready, or has failed it: then it tries again, except after the tenth time, when it stops.
   */
  lemma AttemptsOfReplica(run: seq<System>, i: nat, id: nat)
    requires Run(run) && i + 1 < |run| && id in run[i].replicas && run[i].replicas[id].Trying?
    requires !Restart(run[i], run[i + 1], id) && !Shutdown(run[i], run[i + 1], id)
    ensures id in run[i + 1].replicas
    ensures var a := run[i].replicas[id].attempt;
            && 1 <= a <= 10
            && match run[i + 1].replicas[id]
               case Trying(b, stage) =>
                 || run[i + 1].replicas[id] == run[i].replicas[id]
                 || (b == a && stage != Getting)
                 || (b == a + 1 && a < 10 && stage == Getting)
               case Ready(_) => true
               case Stopped => a == 10
  {
    Reachable(run, i, i);
    assert Safe(run[i].stored, run[i].replicas[id]);
    assert Next(run[i], run[i + 1]);
  }

  lemma ReadyStep(s: System, s': System, id: nat, k: Key)
    requires Next(s, s') && HasKey(s, id, k)
    ensures HasKey(s', id, k) || Restart(s, s', id) || Shutdown(s, s', id)
  {
    if HasKey(s', id, k) {
    } else if other: nat :| Restart(s, s', other) {
      assert other == id;
    } else if other: nat :| Shutdown(s, s', other) {
      assert other == id;
    }
  }

  /** The replica neither restarts nor shuts down in the steps from moment `i` to moment `j`. */
  ghost predicate Undisturbed(run: seq<System>, i: nat, j: nat, id: nat) {
    forall t :: i <= t < j && t + 1 < |run| ==> !Restart(run[t], run[t + 1], id) && !Shutdown(run[t], run[t + 1], id)
  }

  /** A ready replica stays ready, with the same key, for as long as it neither restarts nor shuts down. */
  lemma {:induction false} ReadyStays(run: seq<System>, i: nat, j: nat, id: nat, k: Key)
    requires Run(run) && i <= j < |run| && HasKey(run[i], id, k) && Undisturbed(run, i, j, id)
    ensures HasKey(run[j], id, k)
    decreases j
  {
    if i < j {
      ReadyStays(run, i, j - 1, id, k);
      assert Next(run[j - 1], run[j - 1 + 1]);
      ReadyStep(run[j - 1], run[j], id, k);
      assert !Restart(run[j - 1], run[j - 1 + 1], id) && !Shutdown(run[j - 1], run[j - 1 + 1], id);
    }
  }

  /** The run in which a new replica reads the Secret or creates it. */
  ghost function Startup(stored: Option<SecretObject>, k: Key): seq<System> {
    var joined := map[0 := Trying(1, Getting)];
    if stored.Some? then
      [System(stored, map[]), System(stored, joined), System(stored,
          map[0 := Settle(1, Finished(Checked(stored.value)))])]
    else
      [System(stored, map[]), System(stored, joined), System(stored, map[0 := Trying(1, Creating(k))]),
       System(Some(SecretObject(Some(k))), map[0 := Ready(k)])]
  }

  lemma StartupIsRun(stored: Option<SecretObject>, k: Key)
    requires |k| == KEY_LENGTH
    ensures Run(Startup(stored, k))
  {
    var run := Startup(stored, k);
    assert Restart(run[0], run[1], 0);
    if stored.Some? {
      assert GetStep(run[1], run[2], 0, Found(stored.value), None);
    } else {
      assert GetStep(run[1], run[2], 0, NotFound, Some(k));
      assert CreateStep(run[2], run[3], 0, Created);
    }
  }

  ghost predicate SomeoneReady(s: System) {
    exists id: nat, k: Key :: HasKey(s, id, k)
  }

  ghost predicate CanBecomeReady(stored: Option<SecretObject>) {
    exists run: seq<System> :: Run(run) && run[0].stored == stored && SomeoneReady(run[|run| - 1])
  }

  /** A replica can become ready exactly when the Secret found at first is absent or usable. */
  lemma ReadyPossibleIff(stored: Option<SecretObject>)
    ensures CanBecomeReady(stored) <==> AbsentOrUsable(stored)
  {
    if CanBecomeReady(stored) {
      var run: seq<System> :| Run(run) && run[0].stored == stored && SomeoneReady(run[|run| - 1]);
      var id: nat, k: Key :| HasKey(run[|run| - 1], id, k);
      Reachable(run, 0, |run| - 1);
      assert Safe(run[|run| - 1].stored, run[|run| - 1].replicas[id]);
    }
    if stored.Some? ==> Checked(stored.value).Ok? {
      var k: Key := seq(KEY_LENGTH, i => 0 as Byte);
      StartupIsRun(stored, k);
      var run := Startup(stored, k);
      assert HasKey(run[|run| - 1], 0, if stored.Some? then Checked(stored.value).value else k);
    }
  }
}
