/** What each step of the dockercfg controller does to the store and answers,
    as functions of the world it starts in. The controller's methods are proved
    to behave exactly like these; the properties of the controller are lemmas
    about them. */
module Reconcile {
  import opened Api
  import opened Order
  import opened Classifier
  import opened Remote

  /** The token poll reads the token secret at most this many times plus one. */
  const TokenSecretWaitTimes: nat := 100

  /** The random suffixes the name generator appends for one reconciliation. */
  datatype Suffixes = Suffixes(tokenSuffix: string, bundleSuffix: string)

  // ---------------------------------------------------------------------------
  // Token materializer

  /** The token secret created for an account, before anyone fills it. */
  function TokenSecretFor(sa: ServiceAccount, name: string): Secret {
    Secret(sa.namespace, name,
           map[ServiceAccountNameKey := sa.name, ServiceAccountUIDKey := sa.uid],
           ServiceAccountToken, map[])
  }

  datatype PollResult = Filled(token: Secret) | GetFailed(error: Error) | Exhausted

  /** Reads the token secret for attempts attempt, attempt + 1, ..., TokenSecretWaitTimes
      and stops at the first read that fails or finds the token filled. */
  function Poll(w: World, key: ObjectKey, attempt: nat): (r: (World, PollResult))
    requires attempt <= TokenSecretWaitTimes + 1
    ensures r.0.script == w.script
    ensures |w.log| <= |r.0.log| <= |w.log| + TokenSecretWaitTimes + 1 - attempt
    ensures w.cluster.WellFormed() ==> r.0.cluster.WellFormed()
    ensures r.1.Filled? ==> |TokenData(r.1.token)| > 0
    ensures r.1.GetFailed? ==> r.1.error.ServerError? || r.1.error.NotFound?
    decreases TokenSecretWaitTimes + 1 - attempt
  {
    if attempt > TokenSecretWaitTimes then (w, Exhausted)
    else
      var read := w.GetSecret(key);
      if read.1.Err? then (read.0, GetFailed(read.1.error))
      else if |TokenData(read.1.value)| > 0 then (read.0, Filled(read.1.value))
      else Poll(read.0, key, attempt + 1)
  }

  /** createTokenSecret: create the token secret, wait for it to be filled,
      delete it and fail when it never is. */
  function MaterializeToken(w: World, sa: ServiceAccount, name: string): (r: (World, Result<Secret>))
    ensures r.0.script == w.script
    ensures w.cluster.WellFormed() ==> r.0.cluster.WellFormed()
  {
    var token := TokenSecretFor(sa, name);
    var created := w.CreateSecret(token);
    if created.1.Err? then (created.0, Err(created.1.error))
    else
      var polled := Poll(created.0, token.Key(), 0);
      match polled.1
      case Filled(s) => (polled.0, Ok(s))
      case GetFailed(e) => (polled.0, Err(e))
      case Exhausted => (polled.0.DeleteSecret(token.Key()).0, Err(TokenNeverGenerated(name)))
  }

  // ---------------------------------------------------------------------------
  // Credential bundle builder

  /** The dockercfg secret built from a filled token for registry `url`. */
  function DockercfgSecretFor(sa: ServiceAccount, token: Secret, name: string, url: string): Secret {
    Secret(token.namespace, name,
           map[ServiceAccountNameKey := sa.name,
               ServiceAccountUIDKey := sa.uid,
               ServiceAccountTokenSecretNameKey := token.name],
           Dockercfg,
           map[DockerConfigKey :=
                 Config(map[url := DockerConfigEntry(DockercfgUsername, TokenData(token), DockercfgEmail)])])
  }

  /** createDockerPullSecret: materialize a token, then create the bundle. */
  function BuildBundle(w: World, sa: ServiceAccount, tokenName: string, bundleName: string, url: string)
    : (r: (World, Result<Secret>))
    ensures r.0.script == w.script
    ensures w.cluster.WellFormed() ==> r.0.cluster.WellFormed()
  {
    var (w1, t) := MaterializeToken(w, sa, tokenName);
    if t.Err? then (w1, Err(t.error))
    else w1.CreateSecret(DockercfgSecretFor(sa, t.value, bundleName, url))
  }

  // ---------------------------------------------------------------------------
  // Reference linker

  /** The live account with `name` appended to each list whose generated names
      do not include it yet, and whether anything was appended. */
  function AddReference(live: ServiceAccount, name: string, prefix: string): (ServiceAccount, bool) {
    var withMountable :=
      if name !in Generated(live.secrets, prefix)
      then live.(secrets := live.secrets + [name]) else live;
    var withPull :=
      if name !in Generated(live.imagePullSecrets, prefix)
      then withMountable.(imagePullSecrets := withMountable.imagePullSecrets + [name]) else withMountable;
    (withPull, name !in Generated(live.secrets, prefix) || name !in Generated(live.imagePullSecrets, prefix))
  }

  /** createDockerPullSecretReference: re-read the account, refuse when its
      generated names differ from those the decision was taken on, else append
      `name` where missing and write back under the live version. */
  function LinkBundle(w: World, stale: ServiceAccount, name: string, prefix: string): (r: (World, Outcome))
    ensures r.0.script == w.script
    ensures w.cluster.WellFormed() ==> r.0.cluster.WellFormed()
  {
    var (w1, g) := w.GetAccount(stale.Key());
    if g.Err? then (w1, Fail(g.error))
    else
      var live := g.value;
      var mountable, pull := Generated(live.secrets, prefix), Generated(live.imagePullSecrets, prefix);
      var staleMountable, stalePull := Generated(stale.secrets, prefix), Generated(stale.imagePullSecrets, prefix);
      if staleMountable != mountable || stalePull != pull then
        (w1, Fail(Conflict("serviceaccount", stale.name,
                           StaleDecision(name, staleMountable, stalePull, mountable, pull))))
      else
        var (updated, changed) := AddReference(live, name, prefix);
        if !changed then (w1, Pass)
        else
          var (w2, u) := w1.UpdateAccount(updated);
          (w2, if u.Err? then Fail(u.error) else Pass)
  }

  // ---------------------------------------------------------------------------
  // Reconciler

  /** A conflict means someone else changed the account: a later notification
      will bring the reconciler back, so it is not an error. */
  function AbsorbConflict(o: Outcome): Outcome {
    if o.Fail? && o.error.Conflict? then Pass else o
  }

  /** createDockercfgSecretIfNeeded for the snapshot `sa`. */
  ghost function ReconcileAccount(w: World, sa: ServiceAccount, prefix: string, tokenPrefix: string,
                                  url: string, suffixes: Suffixes): (r: (World, Outcome))
    ensures r.0.script == w.script
    ensures w.cluster.WellFormed() ==> r.0.cluster.WellFormed()
  {
    var mountable, pull := Generated(sa.secrets, prefix), Generated(sa.imagePullSecrets, prefix);
    if |pull| > 0 && |mountable| > 0 then (w, Pass)
    else if |pull| > 0 || |mountable| > 0 then
      var name := if |pull| > 0 then Least(pull) else Least(mountable);
      var (w1, o) := LinkBundle(w, sa, name, prefix);
      (w1, AbsorbConflict(o))
    else
      var (w1, g) := w.GetAccount(sa.Key());
      if g.Err? then (w1, Fail(g.error))
      else if g.value.resourceVersion != sa.resourceVersion then (w1, Pass)
      else
        var (w2, b) := BuildBundle(w1, sa, GenerateName(tokenPrefix, suffixes.tokenSuffix),
                                   GenerateName(prefix, suffixes.bundleSuffix), url);
        if b.Err? then (w2, Fail(b.error))
        else
          var (w3, o) := LinkBundle(w2, sa, b.value.name, prefix);
          if o.Fail? && o.error.Conflict? then (w3.DeleteSecret(b.value.Key()).0, Pass)
          else (w3, o)
  }
}
