/** The remote object store the controller talks to, together with the other
    actors that change it concurrently (other writers of service accounts, the
    token controller that fills token secrets, anyone deleting secrets).
    The store serves one request at a time. Before serving its i-th request it
    lets the other actors take the i-th step of a script: that is where
    concurrent updates and the asynchronous token filling come from. */
module Remote {
  import opened Api

  /** What the other actors do just before the store serves one request. */
  datatype Action =
    | Idle
      /** the request itself fails with a server error; nothing changes */
    | Refuse(reason: string)
      /** another writer stores this account; the store gives it a new version */
    | WriteAccount(account: ServiceAccount)
      /** the token controller writes a token into an existing secret */
    | FillToken(key: ObjectKey, token: string)
      /** another actor deletes a secret */
    | RemoveSecret(key: ObjectKey)

  /** The requests the controller sends, as the store's log records them. */
  datatype Request =
    | AccountGet(key: ObjectKey)
    | AccountUpdate(account: ServiceAccount)
    | SecretCreate(secret: Secret)
    | SecretGet(key: ObjectKey)
    | SecretDelete(key: ObjectKey)

  /** The stored objects and the last resource version handed out. */
  datatype Cluster = Cluster(
    accounts: map<ObjectKey, ServiceAccount>,
    secrets: map<ObjectKey, Secret>,
    version: nat)
  {
    /** Every object is filed under its own key, and no account carries a
        version the store has not handed out yet. */
    ghost predicate WellFormed() {
      && (forall k :: k in accounts ==> accounts[k].Key() == k && accounts[k].resourceVersion <= version)
      && (forall k :: k in secrets ==> secrets[k].Key() == k)
    }
  }

  /** The effect of one step of the other actors. */
  function After(c: Cluster, a: Action): (c': Cluster)
    ensures c.WellFormed() ==> c'.WellFormed()
    ensures c'.version >= c.version
  {
    match a
    case Idle => c
    case Refuse(_) => c
    case WriteAccount(sa) =>
      Cluster(c.accounts[sa.Key() := sa.(resourceVersion := c.version + 1)], c.secrets, c.version + 1)
    case FillToken(key, token) =>
      if key in c.secrets
      then c.(secrets := c.secrets[key := c.secrets[key].(data := c.secrets[key].data[ServiceAccountTokenKey := Raw(token)])])
      else c
    case RemoveSecret(key) => c.(secrets := c.secrets - {key})
  }

  /** The store together with the other actors' script and the requests served
      so far. Each request function gives the world after the request and the
      store's answer. */
  datatype World = World(cluster: Cluster, script: seq<Action>, log: seq<Request>)
  {
    /** The other actors' step before request i. */
    function ActionAt(i: nat): Action {
      if i < |script| then script[i] else Idle
    }

    /** The other actors' step before the next request. */
    function Pending(): Action {
      if |log| < |script| then script[|log|] else Idle
    }

    /** The world the next request is served in, with the request logged. */
    function Serving(req: Request): (w: World)
      ensures w.script == script && w.log == log + [req]
      ensures cluster.WellFormed() ==> w.cluster.WellFormed()
    {
      World(After(cluster, Pending()), script, log + [req])
    }

    function GetAccount(key: ObjectKey): (r: (World, Result<ServiceAccount>))
      ensures r.0 == Serving(AccountGet(key))
      ensures r.1.Ok? <==> !Pending().Refuse? && key in r.0.cluster.accounts
      ensures r.1.Ok? ==> r.1.value == r.0.cluster.accounts[key]
    {
      var w := Serving(AccountGet(key));
      if Pending().Refuse? then (w, Err(ServerError(Pending().reason)))
      else if key in w.cluster.accounts then (w, Ok(w.cluster.accounts[key]))
      else (w, Err(NotFound("serviceaccounts", key.name)))
    }

    /** A write guarded by the caller's resource version: refused with a
        conflict when the stored account has moved on. */
    function UpdateAccount(sa: ServiceAccount): (r: (World, Result<ServiceAccount>))
      ensures r.0.script == script && r.0.log == log + [AccountUpdate(sa)]
      ensures cluster.WellFormed() ==> r.0.cluster.WellFormed()
      ensures var c := Serving(AccountUpdate(sa)).cluster;
              r.1.Ok? <==> !Pending().Refuse? && sa.Key() in c.accounts
                           && c.accounts[sa.Key()].resourceVersion == sa.resourceVersion
      ensures r.1.Ok? ==>
                sa.Key() in r.0.cluster.accounts
                && r.1.value == r.0.cluster.accounts[sa.Key()]
                && r.1.value == sa.(resourceVersion := r.0.cluster.version)
      ensures r.1.Err? ==> r.0 == Serving(AccountUpdate(sa))
    {
      var w := Serving(AccountUpdate(sa));
      var c := w.cluster;
      if Pending().Refuse? then (w, Err(ServerError(Pending().reason)))
      else if sa.Key() !in c.accounts then (w, Err(NotFound("serviceaccounts", sa.name)))
      else if c.accounts[sa.Key()].resourceVersion != sa.resourceVersion then
        (w, Err(Conflict("serviceaccounts", sa.name, VersionMoved)))
      else
        var stored := sa.(resourceVersion := c.version + 1);
        (w.(cluster := Cluster(c.accounts[sa.Key() := stored], c.secrets, c.version + 1)), Ok(stored))
    }

    function CreateSecret(s: Secret): (r: (World, Result<Secret>))
      ensures r.0.script == script && r.0.log == log + [SecretCreate(s)]
      ensures cluster.WellFormed() ==> r.0.cluster.WellFormed()
      ensures r.1.Ok? <==> !Pending().Refuse? && s.Key() !in Serving(SecretCreate(s)).cluster.secrets
      ensures r.1.Ok? ==> r.1.value == s && s.Key() in r.0.cluster.secrets && r.0.cluster.secrets[s.Key()] == s
      ensures r.1.Err? ==> r.0 == Serving(SecretCreate(s))
    {
      var w := Serving(SecretCreate(s));
      var c := w.cluster;
      if Pending().Refuse? then (w, Err(ServerError(Pending().reason)))
      else if s.Key() in c.secrets then (w, Err(AlreadyExists("secrets", s.name)))
      else (w.(cluster := c.(secrets := c.secrets[s.Key() := s])), Ok(s))
    }

    function GetSecret(key: ObjectKey): (r: (World, Result<Secret>))
      ensures r.0 == Serving(SecretGet(key))
      ensures r.1.Ok? <==> !Pending().Refuse? && key in r.0.cluster.secrets
      ensures r.1.Ok? ==> r.1.value == r.0.cluster.secrets[key]
    {
      var w := Serving(SecretGet(key));
      if Pending().Refuse? then (w, Err(ServerError(Pending().reason)))
      else if key in w.cluster.secrets then (w, Ok(w.cluster.secrets[key]))
      else (w, Err(NotFound("secrets", key.name)))
    }

    function DeleteSecret(key: ObjectKey): (r: (World, Outcome))
      ensures r.0.script == script && r.0.log == log + [SecretDelete(key)]
      ensures cluster.WellFormed() ==> r.0.cluster.WellFormed()
      ensures !Pending().Refuse? ==> key !in r.0.cluster.secrets
      ensures r.1.Pass? <==> !Pending().Refuse? && key in Serving(SecretDelete(key)).cluster.secrets
      ensures r.1.Fail? ==> r.0 == Serving(SecretDelete(key))
    {
      var w := Serving(SecretDelete(key));
      var c := w.cluster;
      if Pending().Refuse? then (w, Fail(ServerError(Pending().reason)))
      else if key !in c.secrets then (w, Fail(NotFound("secrets", key.name)))
      else (w.(cluster := c.(secrets := c.secrets - {key})), Pass)
    }
  }
}
