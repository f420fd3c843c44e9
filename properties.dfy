/** What the controller promises, proved about the functions of module
    Reconcile (which its methods are proved to follow). */
module Properties {
  import opened Api
  import opened Order
  import opened Classifier
  import opened Remote
  import opened Reconcile

  /** No request in log[from..] creates a secret. */
  ghost predicate CreatesNoSecret(log: seq<Request>, from: nat) {
    forall i :: from <= i < |log| ==> !log[i].SecretCreate?
  }

  // ---------------------------------------------------------------------------
  // Reference linker

  /** The linker sends one read of the account and at most one update of it,
      and nothing else. */
  lemma LinkSendsAtMostOneUpdate(w: World, stale: ServiceAccount, name: string, prefix: string)
    ensures var (w', _) := LinkBundle(w, stale, name, prefix);
            || w'.log == w.log + [AccountGet(stale.Key())]
            || (exists u :: w'.log == w.log + [AccountGet(stale.Key()), AccountUpdate(u)])
  {
  }

  /** The linker refuses with a stale-decision conflict exactly when the
      account it reads has other generated names than the snapshot the
      decision was taken on; it then sends no update, and the store holds only
      what the other actors did. */
  lemma LinkRefusesStaleDecision(w: World, stale: ServiceAccount, name: string, prefix: string)
    ensures var (w', r) := LinkBundle(w, stale, name, prefix);
            var (w1, g) := w.GetAccount(stale.Key());
            (r.Fail? && r.error.Conflict? && r.error.reason.StaleDecision?)
            <==> (g.Ok? && (Generated(g.value.secrets, prefix) != Generated(stale.secrets, prefix)
                            || Generated(g.value.imagePullSecrets, prefix) != Generated(stale.imagePullSecrets, prefix)))
    ensures var (w', r) := LinkBundle(w, stale, name, prefix);
            r.Fail? && r.error.Conflict? && r.error.reason.StaleDecision? ==>
              && w'.log == w.log + [AccountGet(stale.Key())]
              && w'.cluster == After(w.cluster, w.Pending())
  {
  }

  /** On success the account the store holds references `name` both as a
      mountable and as a pull secret; each list is the list the linker read,
      untouched when `name` was already among its generated names and with
      `name` appended at the end otherwise, so no duplicate is added; and no
      update was sent exactly when `name` was already among the generated
      names of both. */
  lemma LinkAppendsAtMostOneEntry(w: World, stale: ServiceAccount, name: string, prefix: string)
    requires w.cluster.WellFormed()
    ensures var (w', r) := LinkBundle(w, stale, name, prefix);
            var key := stale.Key();
            var seen := After(w.cluster, w.Pending());
            r.Pass? ==>
              && key in seen.accounts && key in w'.cluster.accounts
              && var live := seen.accounts[key];
                 var now := w'.cluster.accounts[key];
                 && name in now.secrets && name in now.imagePullSecrets
                 && now.secrets
                    == (if name in Generated(live.secrets, prefix) then live.secrets else live.secrets + [name])
                 && now.imagePullSecrets
                    == (if name in Generated(live.imagePullSecrets, prefix) then live.imagePullSecrets
                        else live.imagePullSecrets + [name])
                 && now.uid == live.uid
                 && (w'.log == w.log + [AccountGet(key)]
                     <==> name in Generated(live.secrets, prefix) && name in Generated(live.imagePullSecrets, prefix))
  {
  }

  /** No lost update: when another writer stores the account between the
      linker's read and its update, the update is refused as a conflict and
      the other writer's account stands. */
  lemma NoLostUpdate(w: World, stale: ServiceAccount, name: string, prefix: string, other: ServiceAccount)
    requires w.cluster.WellFormed()
    requires other.Key() == stale.Key()
    requires w.ActionAt(|w.log| + 1) == WriteAccount(other)
    ensures var (w', r) := LinkBundle(w, stale, name, prefix);
            |w'.log| == |w.log| + 2 ==>
              && r == Fail(Conflict("serviceaccounts", stale.name, VersionMoved))
              && stale.Key() in w'.cluster.accounts
              && w'.cluster.accounts[stale.Key()] == other.(resourceVersion := w'.cluster.version)
  {
  }

  // ---------------------------------------------------------------------------
  // Token materializer

  /** A read settles the poll when it fails or finds the token filled. */
  predicate Settles(g: Result<Secret>) {
    g.Err? || |TokenData(g.value)| > 0
  }

  /** The world after n successive reads of the token secret, and their answers. */
  ghost function Reads(w: World, key: ObjectKey, n: nat): (r: (World, seq<Result<Secret>>))
    ensures |r.1| == n && |r.0.log| == |w.log| + n
    decreases n
  {
    if n == 0 then (w, [])
    else
      var read := w.GetSecret(key);
      var rest := Reads(read.0, key, n - 1);
      (rest.0, [read.1] + rest.1)
  }

  /** A poll that made n requests leaves the world that n successive reads of
      the token secret leave: it sends nothing but those reads. */
  lemma {:induction false} PollOnlyReadsTheToken(w: World, key: ObjectKey, attempt: nat, n: nat)
    requires attempt <= TokenSecretWaitTimes + 1
    requires |Poll(w, key, attempt).0.log| == |w.log| + n
    ensures Reads(w, key, n).0 == Poll(w, key, attempt).0
    decreases TokenSecretWaitTimes + 1 - attempt
  {
    if attempt <= TokenSecretWaitTimes {
      var step := w.GetSecret(key);
      if step.1.Ok? && |TokenData(step.1.value)| == 0 {
        assert Poll(w, key, attempt) == Poll(step.0, key, attempt + 1);
        PollOnlyReadsTheToken(step.0, key, attempt + 1, n - 1);
        assert Reads(w, key, n).0 == Reads(step.0, key, n - 1).0;
      } else {
        assert Reads(w, key, 1).0 == Reads(step.0, key, 0).0;
      }
    }
  }

  /** A poll that found the token filled after n requests answers with the
      secret of its n-th read; every read before it found the token unfilled. */
  lemma {:induction false} PollReturnsFirstFilledToken(w: World, key: ObjectKey, attempt: nat, n: nat)
    requires attempt <= TokenSecretWaitTimes + 1
    requires Poll(w, key, attempt).1.Filled?
    requires |Poll(w, key, attempt).0.log| == |w.log| + n
    ensures n > 0
    ensures Reads(w, key, n).1[n - 1] == Ok(Poll(w, key, attempt).1.token)
    ensures forall j :: 0 <= j < n - 1 ==> !Settles(Reads(w, key, n).1[j])
    decreases TokenSecretWaitTimes + 1 - attempt
  {
    var step := w.GetSecret(key);
    if step.1.Ok? && |TokenData(step.1.value)| == 0 {
      assert Poll(w, key, attempt) == Poll(step.0, key, attempt + 1);
      PollReturnsFirstFilledToken(step.0, key, attempt + 1, n - 1);
      assert Reads(w, key, n).1 == [step.1] + Reads(step.0, key, n - 1).1;
      forall j | 0 <= j < n - 1
        ensures !Settles(Reads(w, key, n).1[j])
      {
        if j > 0 {
          assert Reads(w, key, n).1[j] == Reads(step.0, key, n - 1).1[j - 1];
        }
      }
    } else {
      assert Poll(w, key, attempt) == (step.0, Filled(step.1.value));
      assert Reads(w, key, 1).1 == [step.1] + Reads(step.0, key, 0).1;
    }
  }

  /** A poll that failed after n requests answers with the error of its n-th
      read; every read before it found the token unfilled. */
  lemma {:induction false} PollAbortsOnFirstFailedRead(w: World, key: ObjectKey, attempt: nat, n: nat)
    requires attempt <= TokenSecretWaitTimes + 1
    requires Poll(w, key, attempt).1.GetFailed?
    requires |Poll(w, key, attempt).0.log| == |w.log| + n
    ensures n > 0
    ensures Reads(w, key, n).1[n - 1] == Err(Poll(w, key, attempt).1.error)
    ensures forall j :: 0 <= j < n - 1 ==> !Settles(Reads(w, key, n).1[j])
    decreases TokenSecretWaitTimes + 1 - attempt
  {
    var step := w.GetSecret(key);
    if step.1.Ok? && |TokenData(step.1.value)| == 0 {
      assert Poll(w, key, attempt) == Poll(step.0, key, attempt + 1);
      PollAbortsOnFirstFailedRead(step.0, key, attempt + 1, n - 1);
      assert Reads(w, key, n).1 == [step.1] + Reads(step.0, key, n - 1).1;
      forall j | 0 <= j < n - 1
        ensures !Settles(Reads(w, key, n).1[j])
      {
        if j > 0 {
          assert Reads(w, key, n).1[j] == Reads(step.0, key, n - 1).1[j - 1];
        }
      }
    } else {
      assert Poll(w, key, attempt) == (step.0, GetFailed(step.1.error));
      assert Reads(w, key, 1).1 == [step.1] + Reads(step.0, key, 0).1;
    }
  }

  /** The poll gives up only after all of its reads found the token unfilled. */
  lemma {:induction false} PollGivesUpAfterEveryRead(w: World, key: ObjectKey, attempt: nat)
    requires attempt <= TokenSecretWaitTimes + 1
    requires Poll(w, key, attempt).1.Exhausted?
    ensures |Poll(w, key, attempt).0.log| == |w.log| + TokenSecretWaitTimes + 1 - attempt
    ensures var rs := Reads(w, key, TokenSecretWaitTimes + 1 - attempt).1;
            forall j :: 0 <= j < |rs| ==> !Settles(rs[j])
    decreases TokenSecretWaitTimes + 1 - attempt
  {
    if attempt <= TokenSecretWaitTimes {
      var step := w.GetSecret(key);
      assert !Settles(step.1) && Poll(w, key, attempt) == Poll(step.0, key, attempt + 1);
      PollGivesUpAfterEveryRead(step.0, key, attempt + 1);
      var n := TokenSecretWaitTimes + 1 - attempt;
      assert Reads(w, key, n).1 == [step.1] + Reads(step.0, key, n - 1).1;
      forall j | 0 <= j < n
        ensures !Settles(Reads(w, key, n).1[j])
      {
        if j > 0 {
          assert Reads(w, key, n).1[j] == Reads(step.0, key, n - 1).1[j - 1];
        }
      }
    }
  }

  /** The token is reported as never generated only after its creation
      succeeded and the poll made all of its reads without seeing it filled;
      the last request then deletes it, and it is gone unless that delete was
      itself refused. */
  lemma TokenTimeoutCleansUp(w: World, sa: ServiceAccount, name: string)
    requires MaterializeToken(w, sa, name).1 == Err(TokenNeverGenerated(name))
    ensures var key := TokenSecretFor(sa, name).Key();
            var created := w.CreateSecret(TokenSecretFor(sa, name));
            && created.1.Ok?
            && Poll(created.0, key, 0).1.Exhausted?
            && |Poll(created.0, key, 0).0.log| == |created.0.log| + TokenSecretWaitTimes + 1
            && MaterializeToken(w, sa, name).0 == Poll(created.0, key, 0).0.DeleteSecret(key).0
    ensures var key := TokenSecretFor(sa, name).Key();
            var polled := Poll(w.CreateSecret(TokenSecretFor(sa, name)).0, key, 0).0;
            key in MaterializeToken(w, sa, name).0.cluster.secrets ==> polled.Pending().Refuse?
  {
    var created := w.CreateSecret(TokenSecretFor(sa, name));
    PollGivesUpAfterEveryRead(created.0, TokenSecretFor(sa, name).Key(), 0);
  }

  // ---------------------------------------------------------------------------
  // Credential bundle builder

  /** The credential map a dockercfg secret carries; empty when it has none. */
  function Credentials(s: Secret): map<string, DockerConfigEntry> {
    if DockerConfigKey in s.data && s.data[DockerConfigKey].Config? then s.data[DockerConfigKey].entries
    else map[]
  }

  /** The bundle holds credentials for exactly the configured registry: the
      fixed user name and email and the token as password; its annotations
      name the account, its UID and the token secret. */
  lemma BundleContents(sa: ServiceAccount, token: Secret, name: string, url: string)
    ensures var b := DockercfgSecretFor(sa, token, name, url);
            && b.name == name && b.namespace == token.namespace && b.secretType == Dockercfg
            && Credentials(b).Keys == {url}
            && Credentials(b)[url] == DockerConfigEntry("serviceaccount", TokenData(token), "serviceaccount@example.org")
            && b.annotations.Keys == {ServiceAccountNameKey, ServiceAccountUIDKey, ServiceAccountTokenSecretNameKey}
            && b.annotations[ServiceAccountNameKey] == sa.name
            && b.annotations[ServiceAccountUIDKey] == sa.uid
            && b.annotations[ServiceAccountTokenSecretNameKey] == token.name
  {
  }

  /** A bundle is created only from a token that was observed filled, so its
      password is never empty. */
  lemma BundleHasFilledPassword(w: World, sa: ServiceAccount, tokenName: string, bundleName: string, url: string)
    ensures var (w1, t) := MaterializeToken(w, sa, tokenName);
            var (w', r) := BuildBundle(w, sa, tokenName, bundleName, url);
            r.Ok? ==>
              && t.Ok? && r.value == DockercfgSecretFor(sa, t.value, bundleName, url)
              && |Credentials(r.value)[url].password| > 0
              && r.value.Key() in w'.cluster.secrets
  {
  }

  // ---------------------------------------------------------------------------
  // Reconciler

  /** An account whose lists both hold a generated name is left alone: no
      request is sent. */
  lemma ConvergedAccountIsLeftAlone(w: World, sa: ServiceAccount, prefix: string, tokenPrefix: string,
                                    url: string, suffixes: Suffixes)
    requires Generated(sa.secrets, prefix) != {} && Generated(sa.imagePullSecrets, prefix) != {}
    ensures ReconcileAccount(w, sa, prefix, tokenPrefix, url, suffixes) == (w, Pass)
  {
  }

  /** When exactly one list holds generated names, the reconciler links the
      least of them into the other list: it creates no secret, a conflict
      counts as success, and on success the account the store holds has that
      name among the generated names of both lists. */
  lemma PartialStateIsRepaired(w: World, sa: ServiceAccount, prefix: string, tokenPrefix: string,
                                                  url: string, suffixes: Suffixes)
    requires w.cluster.WellFormed()
    requires (Generated(sa.secrets, prefix) == {}) != (Generated(sa.imagePullSecrets, prefix) == {})
    ensures var existing := if Generated(sa.imagePullSecrets, prefix) != {}
                            then Generated(sa.imagePullSecrets, prefix) else Generated(sa.secrets, prefix);
            var (w', r) := ReconcileAccount(w, sa, prefix, tokenPrefix, url, suffixes);
            var (w1, o) := LinkBundle(w, sa, Least(existing), prefix);
            && w' == w1 && r == AbsorbConflict(o)
            && CreatesNoSecret(w'.log, |w.log|)
            && (o.Pass? ==>
                  && sa.Key() in w'.cluster.accounts
                  && Least(existing) in Generated(w'.cluster.accounts[sa.Key()].secrets, prefix)
                  && Least(existing) in Generated(w'.cluster.accounts[sa.Key()].imagePullSecrets, prefix))
  {
    var existing := if Generated(sa.imagePullSecrets, prefix) != {}
                    then Generated(sa.imagePullSecrets, prefix) else Generated(sa.secrets, prefix);
    var name := Least(existing);
    assert prefix <= name;
    LinkSendsAtMostOneUpdate(w, sa, name, prefix);
    LinkAppendsAtMostOneEntry(w, sa, name, prefix);
  }

  /** A reconciliation creates a secret only when neither list holds a
      generated name and the account it re-reads still has the snapshot's
      version: a stale snapshot never leads to a new token or bundle. */
  lemma CreatesOnlyFromFreshSnapshot(w: World, sa: ServiceAccount, prefix: string, tokenPrefix: string,
                                                        url: string, suffixes: Suffixes)
    ensures var (w', r) := ReconcileAccount(w, sa, prefix, tokenPrefix, url, suffixes);
            var (w1, g) := w.GetAccount(sa.Key());
            !CreatesNoSecret(w'.log, |w.log|) ==>
              && Generated(sa.secrets, prefix) == {} && Generated(sa.imagePullSecrets, prefix) == {}
              && g.Ok? && g.value.resourceVersion == sa.resourceVersion
  {
  }

  /** When neither list holds a generated name but the re-read account has
      another version than the snapshot, the reconciliation succeeds after
      that one read: no token, no bundle. */
  lemma StaleSnapshotCreatesNothing(w: World, sa: ServiceAccount, prefix: string, tokenPrefix: string,
                                    url: string, suffixes: Suffixes)
    requires Generated(sa.secrets, prefix) == {} && Generated(sa.imagePullSecrets, prefix) == {}
    requires w.GetAccount(sa.Key()).1.Ok?
    requires w.GetAccount(sa.Key()).1.value.resourceVersion != sa.resourceVersion
    ensures ReconcileAccount(w, sa, prefix, tokenPrefix, url, suffixes) == (w.GetAccount(sa.Key()).0, Pass)
    ensures ReconcileAccount(w, sa, prefix, tokenPrefix, url, suffixes).0.log == w.log + [AccountGet(sa.Key())]
  {
  }

  /** A Conflict is never surfaced: the reconciler absorbs it, whichever
      request it came from. */
  lemma ReconcileNeverSurfacesConflict(w: World, sa: ServiceAccount, prefix: string, tokenPrefix: string,
                                       url: string, suffixes: Suffixes)
    ensures var r := ReconcileAccount(w, sa, prefix, tokenPrefix, url, suffixes).1;
            r.Fail? ==> !r.error.Conflict?
  {
  }

  /** On the creation path every other error reaches the caller unchanged: a
      failure is the error of the re-read, of building the bundle, or of
      linking it. */
  lemma CreationPassesErrorsOn(w: World, sa: ServiceAccount, prefix: string, tokenPrefix: string,
                               url: string, suffixes: Suffixes)
    requires Generated(sa.secrets, prefix) == {} && Generated(sa.imagePullSecrets, prefix) == {}
    requires ReconcileAccount(w, sa, prefix, tokenPrefix, url, suffixes).1.Fail?
    ensures var r := ReconcileAccount(w, sa, prefix, tokenPrefix, url, suffixes).1;
            var read := w.GetAccount(sa.Key());
            var built := BuildBundle(read.0, sa, GenerateName(tokenPrefix, suffixes.tokenSuffix),
                                     GenerateName(prefix, suffixes.bundleSuffix), url);
            || (read.1.Err? && r.error == read.1.error)
            || (read.1.Ok? && read.1.value.resourceVersion == sa.resourceVersion
                && built.1.Err? && r.error == built.1.error)
            || (read.1.Ok? && read.1.value.resourceVersion == sa.resourceVersion && built.1.Ok?
                && r == LinkBundle(built.0, sa, built.1.value.name, prefix).1)
  {
    assert |Generated(sa.secrets, prefix)| == 0 && |Generated(sa.imagePullSecrets, prefix)| == 0;
  }

  /** Creation converges: when the reconciler creates a bundle and links it,
      the account the store holds has that bundle, and only it, among the
      generated names of both lists. */
  lemma CreationConverges(w: World, sa: ServiceAccount, prefix: string, tokenPrefix: string,
                                             url: string, suffixes: Suffixes)
    requires w.cluster.WellFormed()
    requires Generated(sa.secrets, prefix) == {} && Generated(sa.imagePullSecrets, prefix) == {}
    ensures var (w1, g) := w.GetAccount(sa.Key());
            g.Ok? && g.value.resourceVersion == sa.resourceVersion ==>
            var (w2, b) := BuildBundle(w1, sa, GenerateName(tokenPrefix, suffixes.tokenSuffix),
                                       GenerateName(prefix, suffixes.bundleSuffix), url);
            b.Ok? ==>
            var (w', r) := ReconcileAccount(w, sa, prefix, tokenPrefix, url, suffixes);
            r.Pass? && LinkBundle(w2, sa, b.value.name, prefix).1.Pass? ==>
              && sa.Key() in w'.cluster.accounts
              && Generated(w'.cluster.accounts[sa.Key()].secrets, prefix) == {b.value.name}
              && Generated(w'.cluster.accounts[sa.Key()].imagePullSecrets, prefix) == {b.value.name}
  {
    var key := sa.Key();
    var (w1, g) := w.GetAccount(key);
    if g.Ok? && g.value.resourceVersion == sa.resourceVersion {
      var bundleName := GenerateName(prefix, suffixes.bundleSuffix);
      var (w2, b) := BuildBundle(w1, sa, GenerateName(tokenPrefix, suffixes.tokenSuffix), bundleName, url);
      if b.Ok? {
        assert b.value.name == bundleName;
        var (w3, o) := LinkBundle(w2, sa, bundleName, prefix);
        if o.Pass? {
          LinkAppendsAtMostOneEntry(w2, sa, bundleName, prefix);
          var (w4, g4) := w2.GetAccount(key);
          var live := g4.value;
          var now := w3.cluster.accounts[key];
          assert Generated(live.secrets, prefix) == {} && Generated(live.imagePullSecrets, prefix) == {};
          assert now.secrets == live.secrets + [bundleName];
          assert now.imagePullSecrets == live.imagePullSecrets + [bundleName];
          GeneratedAppend(live.secrets, bundleName, prefix);
          GeneratedAppend(live.imagePullSecrets, bundleName, prefix);
        }
      }
    }
  }

  /** Reconciling the account a successful creation left behind does nothing:
      no second bundle, no duplicate entries. */
  lemma ReconcileIsIdempotent(w: World, sa: ServiceAccount, prefix: string, tokenPrefix: string,
                              url: string, suffixes: Suffixes, later: World, laterSuffixes: Suffixes)
    requires w.cluster.WellFormed()
    requires Generated(sa.secrets, prefix) == {} && Generated(sa.imagePullSecrets, prefix) == {}
    ensures var (w1, g) := w.GetAccount(sa.Key());
            g.Ok? && g.value.resourceVersion == sa.resourceVersion ==>
            var (w2, b) := BuildBundle(w1, sa, GenerateName(tokenPrefix, suffixes.tokenSuffix),
                                       GenerateName(prefix, suffixes.bundleSuffix), url);
            b.Ok? ==>
            var (w', r) := ReconcileAccount(w, sa, prefix, tokenPrefix, url, suffixes);
            r.Pass? && LinkBundle(w2, sa, b.value.name, prefix).1.Pass? ==>
              && sa.Key() in w'.cluster.accounts
              && ReconcileAccount(later, w'.cluster.accounts[sa.Key()], prefix, tokenPrefix, url, laterSuffixes)
                 == (later, Pass)
  {
    CreationConverges(w, sa, prefix, tokenPrefix, url, suffixes);
  }

  /** A bundle that cannot be linked because the account changed is deleted
      again by the reconciliation's last request (it is gone unless that
      delete was itself refused), and the reconciliation reports success. */
  lemma OrphanBundleIsDeleted(w: World, sa: ServiceAccount, prefix: string, tokenPrefix: string,
                              url: string, suffixes: Suffixes)
    requires Generated(sa.secrets, prefix) == {} && Generated(sa.imagePullSecrets, prefix) == {}
    ensures var (w1, g) := w.GetAccount(sa.Key());
            g.Ok? && g.value.resourceVersion == sa.resourceVersion ==>
            var (w2, b) := BuildBundle(w1, sa, GenerateName(tokenPrefix, suffixes.tokenSuffix),
                                       GenerateName(prefix, suffixes.bundleSuffix), url);
            b.Ok? ==>
            var (w3, o) := LinkBundle(w2, sa, b.value.name, prefix);
            o.Fail? && o.error.Conflict? ==>
            var (w', r) := ReconcileAccount(w, sa, prefix, tokenPrefix, url, suffixes);
            && r == Pass
            && w'.log == w3.log + [SecretDelete(b.value.Key())]
            && (b.value.Key() in w'.cluster.secrets ==> w'.ActionAt(|w3.log|).Refuse?)
  {
  }
}
