/**
 The API server's view of one object's status: every accepted write, in order, with the
 version of a write being its position. Clients fetch some version (a cache may be behind),
 compute a proposal from it and write it back; the server accepts the write only when the
 fetched version is still the newest one.
 */
module Store {

  /** A write being prepared by a client. */
  datatype Attempt<T> = Attempt(readAt: nat, proposal: T)

  datatype Object<T> = Object(history: seq<T>, inFlight: map<nat, Attempt<T>>)

  /** `change(a, b)`: some client operation turns status `a` into status `b`. */
  type Change<!T> = (T, T) -> bool

  ghost predicate Init<T>(o: Object<T>, first: T) {
    o.history == [first] && o.inFlight == map[]
  }

  ghost predicate FetchAs<T(!new)>(change: Change<T>, o: Object<T>, o': Object<T>, client: nat, a: Attempt<T>) {
    && a.readAt < |o.history|
    && change(o.history[a.readAt], a.proposal)
    && o' == o.(inFlight := o.inFlight[client := a])
  }

  /** A client reads any stored version and computes a proposal from it. */
  ghost predicate Fetch<T(!new)>(change: Change<T>, o: Object<T>, o': Object<T>) {
    exists client: nat, a: Attempt<T> :: FetchAs(change, o, o', client, a)
  }

  /** The server compares versions: the newest one is replaced, any other is a conflict. */
  ghost predicate Update<T>(o: Object<T>, o': Object<T>) {
    exists client: nat ::
      && client in o.inFlight
      && var a := o.inFlight[client];
         && o'.inFlight == o.inFlight - {client}
         && o'.history == if a.readAt + 1 == |o.history| then o.history + [a.proposal] else o.history
  }

  /** A client crashes or its request never arrives. */
  ghost predicate Lose<T>(o: Object<T>, o': Object<T>) {
    exists client: nat :: client in o.inFlight && o' == o.(inFlight := o.inFlight - {client})
  }

  ghost predicate Next<T(!new)>(change: Change<T>, o: Object<T>, o': Object<T>) {
    Fetch(change, o, o') || Update(o, o') || Lose(o, o')
  }

  ghost predicate Run<T(!new)>(change: Change<T>, first: T, run: seq<Object<T>>) {
    && run != []
    && Init(run[0], first)
    && forall i :: 0 <= i < |run| - 1 ==> Next(change, run[i], run[i + 1])
  }

  /** Every stored status results from one client operation on the status stored just before it. */
  ghost predicate Linear<T(!new)>(change: Change<T>, history: seq<T>) {
    forall i :: 0 < i < |history| ==> change(history[i - 1], history[i])
  }

  ghost predicate Sound<T(!new)>(change: Change<T>, first: T, o: Object<T>) {
    && o.history != []
    && o.history[0] == first
    && Linear(change, o.history)
    && forall c :: c in o.inFlight ==>
         var a := o.inFlight[c];
         a.readAt < |o.history| && change(o.history[a.readAt], a.proposal)
  }

  /**
   Compare-and-set serialises every interleaving: whatever was fetched, lost or rejected in
   between, the stored statuses form a chain of single client operations.
   */
  lemma {:induction false} CompareAndSetSerialises<T(!new)>(change: Change<T>, first: T, run: seq<Object<T>>)
    requires Run(change, first, run)
    ensures Sound(change, first, run[|run| - 1])
  {
    if |run| > 1 {
      var before := run[..|run| - 1];
      assert forall i :: 0 <= i < |before| - 1 ==> Next(change, before[i], before[i + 1]) by {
        forall i | 0 <= i < |before| - 1 ensures Next(change, before[i], before[i + 1]) {
          assert Next(change, run[i], run[i + 1]);
        }
      }
      CompareAndSetSerialises(change, first, before);
      assert Next(change, run[|run| - 2], run[|run| - 1]);
      StepKeepsSound(change, first, run[|run| - 2], run[|run| - 1]);
    }
  }

  lemma StepKeepsSound<T(!new)>(change: Change<T>, first: T, o: Object<T>, o': Object<T>)
    requires Sound(change, first, o)
    requires Next(change, o, o')
    ensures Sound(change, first, o')
    ensures o.history <= o'.history
  {
  }

  /** A two-state property that is reflexive and transitive along the chain holds between any two versions. */
  lemma {:induction false} Between<T(!new)>(rel: Change<T>, history: seq<T>, i: nat, j: nat)
    requires i <= j < |history|
    requires forall k :: i <= k < |history| ==> rel(history[k], history[k])
    requires forall k :: i < k < |history| ==> rel(history[k - 1], history[k])
    requires forall a, b, c :: rel(a, b) && rel(b, c) ==> rel(a, c)
    ensures rel(history[i], history[j])
  {
    if i < j {
      Between(rel, history, i, j - 1);
      assert rel(history[j - 1], history[j]);
    }
  }

  // ---------------------------------------------------------------------------------------
  // Reachability

  ghost predicate Path<T(!new)>(change: Change<T>, a: T, b: T, h: seq<T>) {
    h != [] && Linear(change, h) && h[0] == a && h[|h| - 1] == b
  }

  /** Any number of changes lead from `a` to `b`. */
  ghost predicate Reaches<T(!new)>(change: Change<T>, a: T, b: T) {
    exists h :: Path(change, a, b, h)
  }

  lemma ReachesSelf<T(!new)>(change: Change<T>, a: T)
    ensures Reaches(change, a, a)
  {
    assert Path(change, a, a, [a]);
  }

  lemma ReachesNext<T(!new)>(change: Change<T>, a: T, b: T, c: T)
    requires Reaches(change, a, b) && change(b, c)
    ensures Reaches(change, a, c)
  {
    var h :| Path(change, a, b, h);
    assert Path(change, a, c, h + [c]);
  }

  lemma ReachesFrom<T(!new)>(change: Change<T>, a: T, b: T, c: T)
    requires change(a, b) && Reaches(change, b, c)
    ensures Reaches(change, a, c)
  {
    var h :| Path(change, b, c, h);
    assert Path(change, a, c, [a] + h);
  }

  /** What every change keeps holds of everything reachable. */
  lemma ReachableKeeps<T(!new)>(change: Change<T>, keeps: T -> bool, a: T, b: T)
    requires Reaches(change, a, b) && keeps(a)
    requires forall s, s' :: keeps(s) && change(s, s') ==> keeps(s')
    ensures keeps(b)
  {
    var h :| Path(change, a, b, h);
    PathKeeps(change, keeps, h, |h| - 1);
  }

  lemma {:induction false} PathKeeps<T(!new)>(change: Change<T>, keeps: T -> bool, h: seq<T>, v: nat)
    requires Linear(change, h) && v < |h| && keeps(h[0])
    requires forall s, s' :: keeps(s) && change(s, s') ==> keeps(s')
    ensures keeps(h[v])
  {
    if v > 0 {
      PathKeeps(change, keeps, h, v - 1);
      assert change(h[v - 1], h[v]);
    }
  }
}
