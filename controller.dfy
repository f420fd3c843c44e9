/** The dockercfg controller: makes sure every service account has a generated
    dockercfg secret, referenced both as a mountable secret and as an image
    pull secret. The API server it talks to is the world `w` each method is
    handed; a method returns the world its requests leave behind (`w'`) with
    its own answer, and is proved to do exactly what the corresponding
    function of module Reconcile says. */
module Controller {
  import opened Api
  import opened Order
  import opened Classifier
  import opened Remote
  import opened Reconcile

  class DockercfgController {
    /** The registry endpoint new dockercfg secrets are written for. */
    var dockerURL: string
    /** The name prefixes derived from an account's identity. */
    const dockercfgPrefix: ObjectKey -> string
    const tokenPrefix: ObjectKey -> string

    constructor (defaultDockerURL: string, dockercfgPrefix: ObjectKey -> string, tokenPrefix: ObjectKey -> string)
      ensures dockerURL == defaultDockerURL
      ensures this.dockercfgPrefix == dockercfgPrefix && this.tokenPrefix == tokenPrefix
    {
      this.dockerURL := defaultDockerURL;
      this.dockercfgPrefix := dockercfgPrefix;
      this.tokenPrefix := tokenPrefix;
    }

    /** Replaces the endpoint used by every bundle built from now on. */
    method SetDockerURL(newDockerURL: string)
      modifies this`dockerURL
      ensures dockerURL == newDockerURL
    {
      dockerURL := newDockerURL;
    }

    /** The Added notification: reconcile, and hand any error to the error sink
        (which this model does not keep). */
    method ServiceAccountAdded(w: World, sa: ServiceAccount, suffixes: Suffixes) returns (w': World)
      ensures w' == ReconcileAccount(w, sa, dockercfgPrefix(sa.Key()), tokenPrefix(sa.Key()), dockerURL, suffixes).0
    {
      var ignored;
      w', ignored := CreateDockercfgSecretIfNeeded(w, sa, suffixes);
    }

    /** The Updated notification: reconcile the new object. */
    method ServiceAccountUpdated(w: World, oldSa: ServiceAccount, newSa: ServiceAccount, suffixes: Suffixes)
      returns (w': World)
      ensures w' == ReconcileAccount(w, newSa, dockercfgPrefix(newSa.Key()), tokenPrefix(newSa.Key()),
                                     dockerURL, suffixes).0
    {
      var ignored;
      w', ignored := CreateDockercfgSecretIfNeeded(w, newSa, suffixes);
    }

    /** createDockercfgSecretIfNeeded. */
    method CreateDockercfgSecretIfNeeded(w: World, sa: ServiceAccount, suffixes: Suffixes)
      returns (w': World, r: Outcome)
      ensures (w', r) == ReconcileAccount(w, sa, dockercfgPrefix(sa.Key()), tokenPrefix(sa.Key()), dockerURL, suffixes)
    {
      var prefix := dockercfgPrefix(sa.Key());
      var mountable, pull := GetGeneratedDockercfgSecretNames(sa, prefix);
      var foundPullSecret := |pull| > 0;
      var foundMountableSecret := |mountable| > 0;

      if foundPullSecret && foundMountableSecret {
        return w, Pass;
      }

      if foundPullSecret || foundMountableSecret {
        var name: string;
        if foundPullSecret {
          name := First(pull);
        } else {
          name := First(mountable);
        }
        w', r := CreateDockerPullSecretReference(w, sa, name);
        return w', AbsorbConflict(r);
      }

      // Both empty: re-read the account before creating anything.
      var read := w.GetAccount(sa.Key());
      var live;
      w', live := read.0, read.1;
      if live.Err? {
        return w', Fail(live.error);
      }
      if live.value.resourceVersion != sa.resourceVersion {
        return w', Pass;
      }

      var bundle;
      w', bundle := CreateDockerPullSecret(w', sa, suffixes);
      if bundle.Err? {
        return w', Fail(bundle.error);
      }

      w', r := CreateDockerPullSecretReference(w', sa, bundle.value.name);
      if r.Fail? && r.error.Conflict? {
        // The bundle could not be linked: remove it. NotFound is fine; any other
        // error would only be reported.
        w' := w'.DeleteSecret(bundle.value.Key()).0;
        return w', Pass;
      }
    }

    /** createDockerPullSecretReference. */
    method CreateDockerPullSecretReference(w: World, stale: ServiceAccount, name: string)
      returns (w': World, r: Outcome)
      ensures (w', r) == LinkBundle(w, stale, name, dockercfgPrefix(stale.Key()))
    {
      var prefix := dockercfgPrefix(stale.Key());
      var read := w.GetAccount(stale.Key());
      var g;
      w', g := read.0, read.1;
      if g.Err? {
        return w', Fail(g.error);
      }
      var live := g.value;

      var mountable, pull := GetGeneratedDockercfgSecretNames(live, prefix);
      var staleMountable, stalePull := GetGeneratedDockercfgSecretNames(stale, prefix);
      if staleMountable != mountable || stalePull != pull {
        return w', Fail(Conflict("serviceaccount", stale.name,
                                 StaleDecision(name, staleMountable, stalePull, mountable, pull)));
      }

      var changed := false;
      if name !in mountable {
        live := live.(secrets := live.secrets + [name]);
        changed := true;
      }
      if name !in pull {
        live := live.(imagePullSecrets := live.imagePullSecrets + [name]);
        changed := true;
      }

      if changed {
        var write := w'.UpdateAccount(live);
        var u;
        w', u := write.0, write.1;
        if u.Err? {
          return w', Fail(u.error);
        }
      }
      return w', Pass;
    }

    /** createTokenSecret: the generated token name is the account's token
        prefix followed by `suffix`. */
    method CreateTokenSecret(w: World, sa: ServiceAccount, suffix: string) returns (w': World, r: Result<Secret>)
      ensures (w', r) == MaterializeToken(w, sa, GenerateName(tokenPrefix(sa.Key()), suffix))
    {
      var token := TokenSecretFor(sa, GenerateName(tokenPrefix(sa.Key()), suffix));
      var create := w.CreateSecret(token);
      var c;
      w', c := create.0, create.1;
      if c.Err? {
        return w', Err(c.error);
      }

      var p;
      w', p := AwaitToken(w', token.Key());
      match p
      case Filled(s) => return w', Ok(s);
      case GetFailed(e) => return w', Err(e);
      case Exhausted =>
        // Never filled: remove the token. NotFound is fine; any other error
        // would only be reported.
        w' := w'.DeleteSecret(token.Key()).0;
        return w', Err(TokenNeverGenerated(token.name));
    }

    /** The wait loop of createTokenSecret: read the token secret until a read
        fails or finds the token filled, at most TokenSecretWaitTimes + 1 times. */
    method AwaitToken(w: World, key: ObjectKey) returns (w': World, p: PollResult)
      ensures (w', p) == Poll(w, key, 0)
    {
      w' := w;
      var i := 0;
      while i <= TokenSecretWaitTimes
        invariant 0 <= i <= TokenSecretWaitTimes + 1
        invariant Poll(w', key, i) == Poll(w, key, 0)
      {
        var read := w'.GetSecret(key);
        var live;
        w', live := read.0, read.1;
        if live.Err? {
          return w', GetFailed(live.error);
        }
        if |TokenData(live.value)| > 0 {
          return w', Filled(live.value);
        }
        i := i + 1;
      }
      return w', Exhausted;
    }

    /** createDockerPullSecret: reads dockerURL once, for the whole build. */
    method CreateDockerPullSecret(w: World, sa: ServiceAccount, suffixes: Suffixes) returns (w': World, r: Result<Secret>)
      ensures (w', r)
           == BuildBundle(w, sa, GenerateName(tokenPrefix(sa.Key()), suffixes.tokenSuffix),
                          GenerateName(dockercfgPrefix(sa.Key()), suffixes.bundleSuffix), dockerURL)
    {
      var token;
      w', token := CreateTokenSecret(w, sa, suffixes.tokenSuffix);
      if token.Err? {
        return w', Err(token.error);
      }
      var bundle := DockercfgSecretFor(sa, token.value,
                                       GenerateName(dockercfgPrefix(sa.Key()), suffixes.bundleSuffix), dockerURL);
      var create := w'.CreateSecret(bundle);
      w', r := create.0, create.1;
    }
  }
}
