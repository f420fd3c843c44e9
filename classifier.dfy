/** Which of a service account's referenced secrets are its generated
    dockercfg secrets: those whose names start with the account's dockercfg
    name prefix. */
module Classifier {
  import opened Api

  /** The names in `names` that start with `prefix`, duplicates collapsed. */
  function Generated(names: seq<string>, prefix: string): set<string> {
    set n | n in names && prefix <= n
  }

  lemma GeneratedAppend(names: seq<string>, n: string, prefix: string)
    ensures Generated(names + [n], prefix)
         == Generated(names, prefix) + (if prefix <= n then {n} else {})
  {
  }

  /** getGeneratedDockercfgSecretNames: the generated names among the
      mountable secrets and among the image pull secrets. */
  method GetGeneratedDockercfgSecretNames(sa: ServiceAccount, prefix: string)
    returns (mountable: set<string>, pull: set<string>)
    ensures forall n :: n in mountable <==> n in sa.secrets && prefix <= n
    ensures forall n :: n in pull <==> n in sa.imagePullSecrets && prefix <= n
    ensures mountable == Generated(sa.secrets, prefix)
    ensures pull == Generated(sa.imagePullSecrets, prefix)
  {
    mountable, pull := {}, {};
    for i := 0 to |sa.secrets|
      invariant mountable == Generated(sa.secrets[..i], prefix)
    {
      if prefix <= sa.secrets[i] {
        mountable := mountable + {sa.secrets[i]};
      }
      assert sa.secrets[..i + 1] == sa.secrets[..i] + [sa.secrets[i]];
      GeneratedAppend(sa.secrets[..i], sa.secrets[i], prefix);
    }
    assert sa.secrets[..|sa.secrets|] == sa.secrets;
    for i := 0 to |sa.imagePullSecrets|
      invariant pull == Generated(sa.imagePullSecrets[..i], prefix)
    {
      if prefix <= sa.imagePullSecrets[i] {
        pull := pull + {sa.imagePullSecrets[i]};
      }
      assert sa.imagePullSecrets[..i + 1] == sa.imagePullSecrets[..i] + [sa.imagePullSecrets[i]];
      GeneratedAppend(sa.imagePullSecrets[..i], sa.imagePullSecrets[i], prefix);
    }
    assert sa.imagePullSecrets[..|sa.imagePullSecrets|] == sa.imagePullSecrets;
  }
}
