/** The helper other operators call to contribute: refetch, set the key, compare-and-set, retry on conflict. */
module ProviderConfig {
  import opened Common
  import opened ProviderModel
  import opened ProviderReconciler

  datatype ConfigData = ConfigData(configMap: string, namespace: string, schema: string)

  datatype UpdateError = NoOperatorName | NoConfigMap | NoNamespace | InvalidSchema | OutOfRetries | ApiError

  /** retry.DefaultRetry makes at most this many attempts. */
  const MAX_ATTEMPTS: nat := 5

  /** Attempt `k` fetches with call 2k and writes with call 2k + 1. */
  ghost predicate Errs(calls: nat -> Call<ConfigData>, k: nat) {
    calls(2 * k).fails || calls(2 * k + 1).fails
  }

  ghost predicate Contended(calls: nat -> Call<ConfigData>, k: nat) {
    !Errs(calls, k) && (calls(2 * k).lag > 0 || calls(2 * k + 1).others != [])
  }

  ghost predicate Clean(calls: nat -> Call<ConfigData>, k: nat) {
    !Errs(calls, k) && calls(2 * k).lag == 0 && calls(2 * k + 1).others == []
  }

  /** Some permitted attempt is clean and every one before it ran into a conflict. */
  ghost predicate CleanInTime(calls: nat -> Call<ConfigData>) {
    exists k: nat :: k < 5 && Clean(calls, k) && forall j: nat :: j < k ==> Contended(calls, j)
  }

  /** The operator's entry is `d`, whether or not it had one; every other entry and field is as before. */
  ghost predicate Sets(before: Status<ConfigData>, name: string, d: ConfigData, after: Status<ConfigData>) {
    && after.data == before.data[name := d]
    && after.phase == before.phase && after.created == before.created && after.completed == before.completed
  }

  ghost function ContributionOf(name: string, d: ConfigData): ((Status<ConfigData>, Status<ConfigData>) -> bool) {
    (a, b) => Sets(a, name, d, b)
  }

  method AttemptUpdate(obj: SharedObject<ConfigData>, ghost before: seq<Status<ConfigData>>, name: string,
      d: ConfigData, calls: nat -> Call<ConfigData>, k: nat) returns (w: Written)
    requires obj.Valid() && Extends(before, obj.history, calls, ContributionOf(name, d))
    modifies obj
    ensures obj.Valid() && Extends(before, obj.history, calls, ContributionOf(name, d))
    ensures w.Rejected? <==> Errs(calls, k)
    ensures w.Stored? ==> |obj.history| >= 2 && Sets(obj.history[|obj.history| - 2], name, d, obj.Current())
    ensures Clean(calls, k) ==> w.Stored?
    ensures w.Stored? && calls(2 * k).lag == 0 ==> Clean(calls, k)
  {
    ghost var write := ContributionOf(name, d);
    var at := obj.Get(calls(2 * k));
    ExtendsByOthers(before, old(obj.history), calls, write, 2 * k);
    if at.None? {
      return Rejected;
    }
    ghost var h := obj.history;
    var latest := obj.history[at.value];
    w := obj.UpdateStatus(at.value, latest.(data := latest.data[name := d]), calls(2 * k + 1));
    StageExtends(before, h, obj.history, calls, write, at.value, Contributed(h[at.value], name, d), w, 2 * k + 1);
  }

  /**
   On success the stored status is the one just before it with only this operator's key set, so no
   other operator's contribution is overwritten; with fresh reads it succeeds exactly when an
   attempt is clean in time. `validJson` is the schema check.
   */
  method UpdateProviderConfig(obj: SharedObject<ConfigData>, name: string, d: ConfigData, validJson: bool,
      calls: nat -> Call<ConfigData>) returns (r: Result<nat, UpdateError>)
    requires obj.Valid()
    modifies obj
    ensures obj.Valid() && Extends(old(obj.history), obj.history, calls, ContributionOf(name, d))
    ensures r.Ok? ==>
              && name != "" && d.configMap != "" && d.namespace != "" && (d.schema == "" || validJson)
              && 1 <= r.value <= 5
              && |obj.history| >= 2 && Sets(obj.history[|obj.history| - 2], name, d, obj.Current())
    ensures r.Err? && !r.error.OutOfRetries? && !r.error.ApiError? ==> obj.history == old(obj.history)
    ensures r == Err(NoOperatorName) <==> name == ""
    ensures r == Err(NoConfigMap) <==> name != "" && d.configMap == ""
    ensures r == Err(NoNamespace) <==> name != "" && d.configMap != "" && d.namespace == ""
    ensures r == Err(InvalidSchema) <==>
        name != "" && d.configMap != "" && d.namespace != "" && d.schema != "" && !validJson
    ensures r == Err(OutOfRetries) ==> forall j: nat :: j < 5 ==> Contended(calls, j)
    ensures r == Err(ApiError) ==>
        exists k: nat :: k < 5 && Errs(calls, k) && forall j: nat :: j < k ==> Contended(calls, j)
    ensures name != "" && d.configMap != "" && d.namespace != "" && (d.schema == "" || validJson) ==>
              && (CleanInTime(calls) ==> r.Ok?)
              && (r.Ok? && (forall c: nat :: calls(c).lag == 0) ==> CleanInTime(calls))
              && (r.Err? ==> r.error.OutOfRetries? || r.error.ApiError?)
  {
    if name == "" {
      return Err(NoOperatorName);
    }
    if d.configMap == "" {
      return Err(NoConfigMap);
    }
    if d.namespace == "" {
      return Err(NoNamespace);
    }
    if d.schema != "" && !validJson {
      return Err(InvalidSchema);
    }
    ghost var before := obj.history;
    var attempt := 0;
    while attempt < MAX_ATTEMPTS
      invariant 0 <= attempt <= MAX_ATTEMPTS
      invariant obj.Valid() && Extends(before, obj.history, calls, ContributionOf(name, d))
      invariant forall j: nat :: j < attempt ==> Contended(calls, j) && !Clean(calls, j)
    {
      var w := AttemptUpdate(obj, before, name, d, calls, attempt);
      if w == Stored {
        return Ok(attempt + 1);
      }
      if w == Rejected {
        assert !Clean(calls, attempt) && !Contended(calls, attempt);
        return Err(ApiError);
      }
      assert Contended(calls, attempt);
      attempt := attempt + 1;
    }
    r := Err(OutOfRetries);
  }
}
