/** The JWT signing key: how one replica loads or creates it, with retries. */
module JwtSecret {
  import opened Common
  import opened Backoff

  type Byte = bv8
  type Key = seq<Byte>

  const KEY_LENGTH: nat := 32

  /** The Secret object; `key` is its "jwt-secret" entry, when there is one. */
  datatype SecretObject = SecretObject(key: Option<Key>)

  datatype LoadError =
    | MissingKey
    | TooShort
    | GetFailed
    | NoRandom
    | CreateFailed
    | RereadFailed
    | Cancelled
    | NoAttempts

  datatype GetAnswer = Found(secret: SecretObject) | NotFound | GetError

  datatype CreateAnswer = Created | AlreadyExists | CreateError

  type Loaded = Result<Key, LoadError>

  function Checked(o: SecretObject): (r: Loaded)
    ensures r.Ok? <==> o.key.Some? && |o.key.value| >= KEY_LENGTH
    ensures r.Ok? ==> r.value == o.key.value
  {
    match o.key
    case None => Err(MissingKey)
    case Some(k) => if |k| < KEY_LENGTH then Err(TooShort) else Ok(k)
  }

  // ---------------------------------------------------------------------------------------
  // What a replica does with each answer

  datatype Stage = Getting | Creating(random: Key) | Rereading | Finished(r: Loaded)

  function AfterGet(g: GetAnswer, random: Option<Key>): Stage {
    match g
    case Found(o) => Finished(Checked(o))
    case GetError => Finished(Err(GetFailed))
    case NotFound => if random.None? then Finished(Err(NoRandom)) else Creating(random.value)
  }

  function AfterCreate(c: CreateAnswer, random: Key): Stage {
    match c
    case Created => Finished(Ok(random))
    case AlreadyExists => Rereading
    case CreateError => Finished(Err(CreateFailed))
  }

  function AfterReread(g: GetAnswer): Stage {
    if g.Found? then Finished(Checked(g.secret)) else Finished(Err(RereadFailed))
  }

  /** One whole attempt, as a sequence of those reactions. */
  function Composed(g: GetAnswer, random: Option<Key>, c: CreateAnswer, g2: GetAnswer): Loaded {
    match AfterGet(g, random)
    case Finished(r) => r
    case Creating(k) => (
      match AfterCreate(c, k)
      case Finished(r) => r
      case _ => AfterReread(g2).r
    )
    case _ => Err(GetFailed)
  }

  // ---------------------------------------------------------------------------------------
  // What the API server may answer when nobody else changes the Secret

  /** A cached read may miss a Secret that exists. */
  predicate CanGet(stored: Option<SecretObject>, g: GetAnswer) {
    g.Found? ==> stored == Some(g.secret)
  }

  /** A creation that is reported as failed may have taken effect. */
  predicate CanCreate(stored: Option<SecretObject>, k: Key, c: CreateAnswer, stored': Option<SecretObject>) {
    && (stored.Some? ==> stored' == stored && !c.Created?)
    && (stored.None? ==>
        !c.AlreadyExists? && (stored' == Some(SecretObject(Some(k)))
        || (stored'.None? && c.CreateError?)))
  }

  ghost predicate Holds(stored: Option<SecretObject>, k: Key) {
    stored == Some(SecretObject(Some(k))) && |k| >= KEY_LENGTH
  }

  // ---------------------------------------------------------------------------------------
  // One replica

  datatype Serve = Served | Stale | Errored

  /** The surroundings of one attempt: other replicas may create the Secret before either call. */
  datatype Attempt = Attempt(early: Option<Key>, get: Serve, random: Option<Key>, rival: Option<Key>,
                             create: Serve, reread: Serve, cancelled: bool)

  predicate Sane(a: Attempt) {
    && (a.early.Some? ==> |a.early.value| == KEY_LENGTH)
    && (a.rival.Some? ==> |a.rival.value| == KEY_LENGTH)
    && (a.random.Some? ==> |a.random.value| == KEY_LENGTH)
  }

  /** No API error; the first read may still be stale. */
  predicate Smooth(a: Attempt) {
    !a.get.Errored? && a.create.Served? && a.reread.Served? && a.random.Some?
  }

  function Landed(stored: Option<SecretObject>, rival: Option<Key>): Option<SecretObject> {
    if stored.None? && rival.Some? then Some(SecretObject(rival)) else stored
  }

  class SecretStore {
    var stored: Option<SecretObject>

    constructor (first: Option<SecretObject>)
      ensures stored == first
    {
      stored := first;
    }

    method Get(rival: Option<Key>, serve: Serve) returns (g: GetAnswer)
      modifies this
      ensures stored == Landed(old(stored), rival) && CanGet(stored, g)
      ensures serve.Served? ==> g == if stored.Some? then Found(stored.value) else NotFound
      ensures serve.Stale? ==> g == NotFound
      ensures g.GetError? <==> serve.Errored?
    {
      stored := Landed(stored, rival);
      match serve
      case Errored => g := GetError;
      case Stale => g := NotFound;
      case Served => g := if stored.Some? then Found(stored.value) else NotFound;
    }

    /** `Stale` stands for a reply that is lost after the creation took effect. */
    method Create(k: Key, rival: Option<Key>, serve: Serve) returns (c: CreateAnswer)
      modifies this
      ensures CanCreate(Landed(old(stored), rival), k, c, stored)
      ensures serve.Served? ==> c == if Landed(old(stored), rival).Some? then AlreadyExists else Created
      ensures !serve.Served? ==> c.CreateError?
    {
      stored := Landed(stored, rival);
      if serve == Errored {
        return CreateError;
      }
      c := if stored.Some? then AlreadyExists else Created;
      if stored.None? {
        stored := Some(SecretObject(Some(k)));
      }
      if serve == Stale {
        c := CreateError;
      }
    }
  }

  /** What reading a Secret gives: its key, if there is one of at least 32 bytes. */
  ghost predicate Reads(o: SecretObject, r: Loaded) {
    match o.key
    case None => r == Err(MissingKey)
    case Some(k) => r == if |k| < 32 then Err(TooShort) else Ok(k)
  }

  /** The Secret is absent, or its key has at least 32 bytes. */
  ghost predicate AbsentOrUsable(stored: Option<SecretObject>) {
    stored.Some? ==> stored.value.key.Some? && |stored.value.key.value| >= 32
  }

  /** The answers of one attempt read off what happens around it, error by error. */
  ghost predicate Answered(before: Option<SecretObject>, a: Attempt, r: Loaded) {
    var found := Landed(before, a.early);
    var atCreate := Landed(found, a.rival);
    if a.get.Errored? then r == Err(GetFailed)
    else if a.get.Served? && found.Some? then Reads(found.value, r)
    else if a.random.None? then r == Err(NoRandom)
    else if !a.create.Served? then r == Err(CreateFailed)
    else if atCreate.None? then r == Ok(a.random.value)
    else if !a.reread.Served? then r == Err(RereadFailed)
    else Reads(atCreate.value, r)
  }

  /** An existing Secret is never replaced. */
  ghost predicate Kept(before: Option<SecretObject>, after: Option<SecretObject>) {
    before.Some? ==> after == before
  }

  /**
   A key is returned only if it is the stored one, and without API errors the attempt ends with a
   stored Secret and returns exactly its checked content. `g`, `c` and `g2` are the answers seen.
   */
  method LoadOrCreateSecret(store: SecretStore, a: Attempt) returns (r: Loaded, ghost g: GetAnswer,
      ghost c: CreateAnswer, ghost g2: GetAnswer)
    requires Sane(a)
    modifies store
    ensures r == Composed(g, a.random, c, g2)
    ensures Answered(old(store.stored), a, r)
    ensures CanGet(Landed(old(store.stored), a.early), g) && CanGet(store.stored, g2)
    ensures Kept(old(store.stored), store.stored)
    ensures r.Ok? ==> Holds(store.stored, r.value)
    ensures r.Err? && (r.error.MissingKey? || r.error.TooShort?) ==>
        store.stored.Some? && Checked(store.stored.value) == r
    ensures r.Err? ==> !r.error.Cancelled? && !r.error.NoAttempts?
    ensures Smooth(a) ==> store.stored.Some? && r == Checked(store.stored.value)
    ensures old(store.stored).None? && store.stored.Some? ==> Checked(store.stored.value).Ok?
  {
    c, g2 := CreateError, GetError;
    var first := store.Get(a.early, a.get);
    g := first;
    if first.Found? {
      r := Checked(first.secret);
      return;
    }
    if first != NotFound {
      r := Err(GetFailed);
      return;
    }
    if a.random.None? {
      r := Err(NoRandom);
      return;
    }
    var randomSecret := a.random.value;
    var created := store.Create(randomSecret, a.rival, a.create);
    c := created;
    if created != Created {
      if created == AlreadyExists {
        var again := store.Get(None, a.reread);
        g2 := again;
        r := if again.Found? then Checked(again.secret) else Err(RereadFailed);
        return;
      }
      r := Err(CreateFailed);
      return;
    }
    r := Ok(randomSecret);
  }

  // ---------------------------------------------------------------------------------------
  // Retrying

  const BACKOFF_CAP: int := 30 * SECOND

  /** The wait after failed attempt `i + 1`. */
  function BackoffAt(initial: int, i: nat): int {
    if i == 0 then initial
    else
      var doubled := BackoffAt(initial, i - 1) * 2;
      if doubled > BACKOFF_CAP then BACKOFF_CAP else doubled
  }

  function Total(waits: seq<int>): int {
    if waits == [] then 0 else Total(waits[..|waits| - 1]) + waits[|waits| - 1]
  }

  /** Doubling with a cap at every step is doubling capped once. */
  lemma {:induction false} BackoffClosedForm(initial: int, i: nat)
    requires 0 <= initial
    ensures BackoffAt(initial, i) ==
      if i == 0 || initial * Pow2(i) <= BACKOFF_CAP then initial * Pow2(i) else BACKOFF_CAP
  {
    if i > 0 {
      BackoffClosedForm(initial, i - 1);
      assert initial * Pow2(i) == (initial * Pow2(i - 1)) * 2;
    }
  }

  ghost predicate BackoffWaits(initial: int, waits: seq<int>) {
    forall i :: 0 <= i < |waits| ==> waits[i] == BackoffAt(initial, i)
  }

  lemma {:induction false} TotalAt(waits: seq<int>)
    requires BackoffWaits(SECOND, waits)
    ensures Total(waits) == SECOND * (if |waits| <= 5 then Pow2(|waits|) - 1 else 31 + 30 * (|waits| - 5))
  {
    if waits != [] {
      var n := |waits| - 1;
      TotalAt(waits[..n]);
      BackoffClosedForm(SECOND, n);
      SmallPowers();
      if n >= 5 {
        Pow2Monotone(5, n);
      }
      assert waits[n] == SECOND * (if n < 5 then Pow2(n) else 30);
    }
  }

  lemma SmallPowers()
    ensures Pow2(0) == 1 && Pow2(1) == 2 && Pow2(2) == 4 && Pow2(3) == 8 && Pow2(4) == 16 && Pow2(5) == 32
  {
  }

  /** The waits of Start: each at most thirty seconds, at most 151 seconds in all. */
  lemma StartWaits(waits: seq<int>)
    requires |waits| <= 9 && BackoffWaits(SECOND, waits)
    ensures forall i :: 0 <= i < |waits| ==> SECOND <= waits[i] <= 30 * SECOND
    ensures Total(waits) <= 151 * SECOND
    ensures Total(waits) == 151 * SECOND <==> |waits| == 9
  {
    forall i | 0 <= i < |waits| ensures SECOND <= waits[i] <= 30 * SECOND {
      BackoffClosedForm(SECOND, i);
      Pow2Monotone(0, i);
      SmallPowers();
    }
    TotalAt(waits);
    SmallPowers();
    if |waits| <= 5 {
      Pow2Monotone(|waits|, 5);
    }
  }

  /** Doubling from one second, up to thirty. */
  lemma StartWaitsAre(waits: seq<int>)
    requires |waits| <= 9 && BackoffWaits(SECOND, waits)
    ensures forall i :: 0 <= i < |waits| ==> waits[i] == [1, 2, 4, 8, 16, 30, 30, 30, 30][i] * 1_000_000_000
  {
    forall i | 0 <= i < |waits| ensures waits[i] == [1, 2, 4, 8, 16, 30, 30, 30, 30][i] * 1_000_000_000 {
      BackoffClosedForm(SECOND, i);
      SmallPowers();
      if i >= 5 {
        Pow2Monotone(5, i);
      }
    }
  }

  /** Some permitted attempt meets no API error, and no wait before it is cancelled. */
  ghost predicate SucceedsWithin(attempts: int, world: nat -> Attempt) {
    exists k: nat :: k < attempts && Smooth(world(k)) && forall j: nat :: j < k ==> !world(j).cancelled
  }

  /** `waits` are the completed waits, in order; a cancelled wait ends the loop. */
  method LoadOrCreateWithRetry(store: SecretStore, maxRetries: int, initial: int, world: nat -> Attempt)
    returns (r: Loaded, waits: seq<int>)
    requires forall n: nat :: Sane(world(n))
    modifies store
    ensures Kept(old(store.stored), store.stored)
    ensures r.Ok? ==> Holds(store.stored, r.value)
    ensures old(store.stored).None? && store.stored.Some? ==> Checked(store.stored.value).Ok?
    ensures BackoffWaits(initial, waits)
    ensures maxRetries >= 1 ==> |waits| < maxRetries
    ensures r.Err? && !r.error.Cancelled? && maxRetries >= 1 ==> |waits| == maxRetries - 1
    ensures r.Err? && r.error.Cancelled? ==> |waits| < maxRetries - 1 && world(|waits|).cancelled
    ensures maxRetries < 1 ==> r == Err(NoAttempts) && store.stored == old(store.stored)
    ensures SucceedsWithin(maxRetries, world) && AbsentOrUsable(old(store.stored)) ==> r.Ok?
  {
    var backoff := initial;
    waits := [];
    var attempt := 1;
    while attempt <= maxRetries
      invariant 1 <= attempt && (maxRetries >= 1 ==> attempt <= maxRetries)
      invariant |waits| == attempt - 1 && BackoffWaits(initial, waits) && backoff == BackoffAt(initial, |waits|)
      invariant Kept(old(store.stored), store.stored)
      invariant old(store.stored).None? && store.stored.Some? ==> Checked(store.stored.value).Ok?
      invariant maxRetries < 1 ==> store.stored == old(store.stored)
      invariant AbsentOrUsable(old(store.stored)) ==>
          forall j: nat :: j < attempt - 1 ==> !Smooth(world(j)) && !world(j).cancelled
      decreases maxRetries - attempt
    {
      var loaded, _, _, _ := LoadOrCreateSecret(store, world(attempt - 1));
      r := loaded;
      if r.Ok? {
        return;
      }
      if attempt == maxRetries {
        return;
      }
      if world(attempt - 1).cancelled {
        return Err(Cancelled), waits;
      }
      waits := waits + [backoff];
      backoff := backoff * 2;
      if backoff > BACKOFF_CAP {
        backoff := BACKOFF_CAP;
      }
      attempt := attempt + 1;
    }
    r := Err(NoAttempts);
  }

  class SecretManager {
    var secret: Key
    var ready: bool

    /** A ready manager holds the stored key. */
    ghost predicate Valid(store: SecretStore)
      reads this, store
    {
      ready ==> Holds(store.stored, secret)
    }

    constructor ()
      ensures !ready
    {
      secret, ready := [], false;
    }

    method Start(store: SecretStore, world: nat -> Attempt) returns (r: Loaded, waits: seq<int>)
      requires !ready && forall n: nat :: Sane(world(n))
      modifies this, store
      ensures Valid(store) && Kept(old(store.stored), store.stored)
      ensures ready <==> r.Ok?
      ensures ready ==> r.value == secret
      ensures SucceedsWithin(10, world) && AbsentOrUsable(old(store.stored)) ==> ready
      ensures r.Err? && !r.error.Cancelled? ==> |waits| == 9
      ensures r.Err? && r.error.Cancelled? ==> |waits| < 9 && world(|waits|).cancelled
      ensures |waits| <= 9 && Total(waits) <= 151_000_000_000
      ensures forall i :: 0 <= i < |waits| ==>
          waits[i] == [1, 2, 4, 8, 16, 30, 30, 30, 30][i] * 1_000_000_000
    {
      r, waits := LoadOrCreateWithRetry(store, 10, SECOND, world);
      StartWaits(waits);
      StartWaitsAre(waits);
      if r.Err? {
        return;
      }
      secret := r.value;
      ready := true;
    }

    /** The key a token generator gets, once there is one. */
    method GetTokenGenerator(store: SecretStore) returns (k: Option<Key>)
      requires Valid(store)
      ensures k.Some? <==> ready
      ensures k.Some? ==> Holds(store.stored, k.value)
    {
      if !ready {
        return None;
      }
      return Some(secret);
    }

    method IsReady() returns (b: bool)
      ensures b == ready
    {
      b := ready;
    }
  }
}
