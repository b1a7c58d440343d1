/** The boot loader's environment: what storing a value, or an empty one, does to its variables. */
module BootEnvironment {
  import opened Basics

  type Environment = map<string, string>

  /** Storing a value; whether an empty one is kept or deletes the name is `keeps`. */
  function StoreOne(env: Environment, name: string, value: string, keeps: bool): Environment {
    if value != [] || keeps then env[name := value] else env - {name}
  }

  function Lookup(env: Environment, name: string): Option<string> {
    if name in env then Some(env[name]) else None
  }

  /** What a name holds after a value was stored. */
  function Kept(value: string, keeps: bool): Option<string> {
    if value != [] || keeps then Some(value) else None
  }

  lemma StoredOne(env: Environment, name: string, value: string, keeps: bool, other: string)
    ensures Lookup(StoreOne(env, name, value, keeps), other)
         == if other == name then Kept(value, keeps) else Lookup(env, other)
  {
  }

  lemma SameEnvironment(a: Environment, b: Environment)
    requires forall name :: Lookup(a, name) == Lookup(b, name)
    ensures a == b
  {
    assert forall name :: name in a <==> Lookup(a, name).Some?;
    assert forall name :: name in b <==> Lookup(b, name).Some?;
    assert forall name :: name in a ==> Lookup(a, name) == Some(a[name]) && Lookup(b, name) == Some(b[name]);
  }
}
