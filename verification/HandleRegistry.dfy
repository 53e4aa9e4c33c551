/** The generation-tagged handle registry of src/native_handle_registry.cpp. */
module HandleRegistry {
  import opened Common
  import opened Operations

  datatype Entry = Entry(generation: nat, open: bool)

  type Registry = map<nat, Entry>

  predicate Current(r: Registry, token: Token) {
    token.native in r && r[token.native].open && r[token.native].generation == token.generation
  }

  function Generation(r: Registry, native: nat): nat {
    if native in r then r[native].generation else 0
  }

  predicate IsOpen(r: Registry, native: nat) {
    native in r && r[native].open
  }

  /** Registration opens a handle under the next generation unless it is zero or already open. */
  function Registered(r: Registry, native: nat): Registry {
    if native == 0 || IsOpen(r, native) then r else r[native := Entry(Generation(r, native) + 1, true)]
  }

  function RegisterResult(r: Registry, native: nat): Result<Token, ErrorCode> {
    if native == 0 || IsOpen(r, native) then Err(InvalidState)
    else Ok(Token(native, Generation(r, native) + 1))
  }

  function ClosedRegistry(r: Registry, token: Token): Registry {
    if Current(r, token) then r[token.native := Entry(token.generation, false)] else r
  }

  /** Every entry was registered at least once, and never for handle zero. */
  ghost predicate WellFormed(r: Registry) {
    0 !in r && forall h :: h in r ==> r[h].generation > 0
  }

  /** `r'` comes later than `r`: generations only grow, and a generation opens once. */
  ghost predicate Later(r: Registry, r': Registry) {
    forall h :: h in r ==>
      && h in r'
      && r[h].generation <= r'[h].generation
      && (r[h].generation == r'[h].generation && r'[h].open ==> r[h].open)
  }

  /** The token was handed out, at or before `r`, and is no longer current in `r`. */
  predicate Retired(r: Registry, token: Token) {
    token.native in r && token.generation <= r[token.native].generation && !Current(r, token)
  }

  lemma StepsAreLater(r: Registry, native: nat, token: Token)
    ensures Later(r, Registered(r, native)) && Later(r, ClosedRegistry(r, token))
    ensures WellFormed(r) ==> WellFormed(Registered(r, native)) && WellFormed(ClosedRegistry(r, token))
  {
  }

  lemma LaterTransitive(a: Registry, b: Registry, c: Registry)
    requires Later(a, b) && Later(b, c)
    ensures Later(a, c)
  {
    forall h | h in a
      ensures h in c && a[h].generation <= c[h].generation
      ensures a[h].generation == c[h].generation && c[h].open ==> a[h].open
    {
      assert h in b;
    }
  }

  /** A closed token is never current again, even after its native handle is registered anew. */
  lemma RetiredForever(r: Registry, r': Registry, token: Token)
    requires Later(r, r') && Retired(r, token)
    ensures Retired(r', token)
  {
    assert token.native in r';
  }

  /** Registering returns a current token that no earlier registry state could have handed out. */
  lemma RegisterIsFresh(r: Registry, native: nat)
    requires RegisterResult(r, native).Ok?
    ensures Current(Registered(r, native), RegisterResult(r, native).value)
    ensures forall token: Token :: token.native == native && Current(Registered(r, native), token) ==>
              token == RegisterResult(r, native).value
    ensures forall token: Token :: token.native != native ==> (Current(Registered(r, native), token) <==> Current(r, token))
    ensures forall r0 {:trigger Later(r0, r)} :: Later(r0, r) ==> !Current(r0, RegisterResult(r, native).value)
  {
  }

  /** Closing retires exactly the token that is closed. */
  lemma CloseRetires(r: Registry, token: Token)
    requires Current(r, token)
    ensures Retired(ClosedRegistry(r, token), token)
    ensures forall other :: other != token ==> (Current(ClosedRegistry(r, token), other) <==> Current(r, other))
  {
  }

  class NativeHandleRegistry {
    var entries: Registry

    constructor ()
      ensures entries == map[]
    {
      entries := map[];
    }

    method RegisterHandle(native: nat) returns (r: Result<Token, ErrorCode>)
      modifies this
      ensures entries == Registered(old(entries), native)
      ensures r == RegisterResult(old(entries), native)
    {
      if native == 0 {
        return Err(InvalidState);
      }
      var entry := if native in entries then entries[native] else Entry(0, false);
      if entry.open {
        return Err(InvalidState);
      }
      entries := entries[native := Entry(entry.generation + 1, true)];
      return Ok(Token(native, entry.generation + 1));
    }

    method Close(token: Token) returns (r: VoidResult)
      modifies this
      ensures entries == ClosedRegistry(old(entries), token)
      ensures r == if Current(old(entries), token) then Ok(()) else Err(InvalidState)
    {
      if token.native !in entries || entries[token.native].generation != token.generation
         || !entries[token.native].open
      {
        return Err(InvalidState);
      }
      entries := entries[token.native := entries[token.native].(open := false)];
      return Ok(());
    }

    predicate IsCurrent(token: Token)
      reads this
    {
      Current(entries, token)
    }
  }
}
