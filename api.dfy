/** Objects the controller reads and writes: service accounts, secrets, and the
    errors the store and the controller answer with. */
module Api {

  /** Annotation keys and data keys of the Kubernetes API the controller uses. */
  const ServiceAccountNameKey := "kubernetes.io/service-account.name"
  const ServiceAccountUIDKey := "kubernetes.io/service-account.uid"
  const ServiceAccountTokenKey := "token"
  const DockerConfigKey := ".dockercfg"
  /** Annotation on a dockercfg secret naming the token secret it was built from. */
  const ServiceAccountTokenSecretNameKey := "openshift.io/token-secret.name"

  /** Fixed parts of every generated credential entry. */
  const DockercfgUsername := "serviceaccount"
  const DockercfgEmail := "serviceaccount@example.org"

  /** Namespace and name: the identity the store files an object under. */
  datatype ObjectKey = ObjectKey(namespace: string, name: string)

  /** A service account. Only the names of the referenced secrets matter here;
      the resource version is the store's opaque optimistic-concurrency token. */
  datatype ServiceAccount = ServiceAccount(
    namespace: string,
    name: string,
    uid: string,
    resourceVersion: nat,
    secrets: seq<string>,
    imagePullSecrets: seq<string>)
  {
    function Key(): ObjectKey { ObjectKey(namespace, name) }
  }

  datatype SecretType = ServiceAccountToken | Dockercfg

  /** One registry's entry in a dockercfg credential map. */
  datatype DockerConfigEntry = DockerConfigEntry(username: string, password: string, email: string)

  /** The value under one data key of a secret: raw bytes (a Go string), or a
      credential map standing for its JSON serialisation. */
  datatype Value = Raw(bytes: string) | Config(entries: map<string, DockerConfigEntry>)

  datatype Secret = Secret(
    namespace: string,
    name: string,
    annotations: map<string, string>,
    secretType: SecretType,
    data: map<string, Value>)
  {
    function Key(): ObjectKey { ObjectKey(namespace, name) }
  }

  /** The token a token secret holds; a missing slot reads as empty, as a nil
      byte slice does in Go. */
  function TokenData(s: Secret): string {
    if ServiceAccountTokenKey in s.data && s.data[ServiceAccountTokenKey].Raw?
    then s.data[ServiceAccountTokenKey].bytes
    else ""
  }

  /** Why a write was refused as a conflict: the store's version moved, or the
      linker found that the decision it was asked to carry out was taken on
      stale lists (it reports both classifications). */
  datatype ConflictReason =
    | VersionMoved
    | StaleDecision(bundle: string,
                    staleMountable: set<string>, stalePull: set<string>,
                    liveMountable: set<string>, livePull: set<string>)

  datatype Error =
    | Conflict(resource: string, name: string, reason: ConflictReason)
    | NotFound(resource: string, name: string)
    | AlreadyExists(resource: string, name: string)
      /** any other refusal of the store: transport, validation, authorisation */
    | ServerError(message: string)
      /** the token secret was never filled within the poll bound */
    | TokenNeverGenerated(tokenName: string)

  datatype Result<T> = Ok(value: T) | Err(error: Error)

  datatype Outcome = Pass | Fail(error: Error)

  /** What secret.Strategy.GenerateName produces: the prefix followed by a
      random suffix, which the caller supplies. */
  function GenerateName(prefix: string, suffix: string): (name: string)
    ensures prefix <= name
  {
    prefix + suffix
  }
}
