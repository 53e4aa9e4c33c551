/**
 The association table of the IOCP backend: completion keys name a slot and a
 generation (src/backends_iocp_backend.cpp, include/voris/io/backends/iocp_backend.hpp).
 */
module IocpAssociations {
  import opened Common
  import opened Operations
  import opened HandleRegistry

  // Completion keys, for 64-bit words

  const HALF: nat := 0x1_0000_0000
  const LOW_MASK: nat := 0xffff_ffff
  const WAKE_KEY: nat := 0xffff_ffff_ffff_ffff
  const MAX_ASSOCIATIONS: nat := 32768

  datatype Key = Key(association: nat, generation: nat)

  function Pack(key: Key): Result<nat, ErrorCode> {
    if key.association == 0 || key.generation == 0 || key.association > LOW_MASK || key.generation > LOW_MASK then
      Err(InvalidState)
    else if key.generation * HALF + key.association == WAKE_KEY then Err(InvalidState)
    else Ok(key.generation * HALF + key.association)
  }

  function Unpack(raw: nat): Result<Key, ErrorCode> {
    if raw == WAKE_KEY then Err(InvalidState)
    else if raw % HALF == 0 || raw / HALF == 0 then Err(InvalidState)
    else Ok(Key(raw % HALF, raw / HALF))
  }

  /** A packed key fits a word, is not the wake sentinel, and unpacks to itself; two keys are rejected for the sentinel's sake or their range. */
  lemma PackRoundTrip(key: Key)
    ensures Pack(key).Ok? ==>
              Pack(key).value < WAKE_KEY && Unpack(Pack(key).value) == Ok(key)
    ensures Pack(key).Ok? <==>
              && 0 < key.association <= LOW_MASK && 0 < key.generation <= LOW_MASK
              && key != Key(LOW_MASK, LOW_MASK)
  {
  }

  lemma UnpackRoundTrip(raw: nat)
    requires raw <= WAKE_KEY && Unpack(raw).Ok?
    ensures Pack(Unpack(raw).value) == Ok(raw)
  {
  }

  // The table

  /** Slot `i` has association id `i + 1`. */
  datatype Slot = Slot(token: Token, generation: nat, open: bool, reusable: bool, bump: bool)

  datatype Table = Table(slots: seq<Slot>, free: seq<nat>, byNative: map<nat, nat>)

  const EMPTY_TABLE := Table([], [], map[])
  const NO_TOKEN := Token(0, 0)

  predicate IsId(t: Table, id: nat) {
    0 < id <= |t.slots|
  }

  predicate SlotOk(e: Slot) {
    && 0 < e.generation <= LOW_MASK
    && (e.open ==> !e.reusable)
    && (e.bump ==> e.reusable && e.generation < LOW_MASK)
  }

  ghost predicate SlotsOk(t: Table) {
    |t.slots| <= MAX_ASSOCIATIONS && forall i :: 0 <= i < |t.slots| ==> SlotOk(t.slots[i])
  }

  predicate Reusable(t: Table, id: nat) {
    IsId(t, id) && t.slots[id - 1].reusable
  }

  /** A slot is reusable exactly when its id is in the free list, once. */
  ghost predicate FreeOk(t: Table) {
    NoDuplicates(t.free) && forall id: nat :: id in t.free <==> Reusable(t, id)
  }

  predicate NativeEntryOk(t: Table, n: nat) {
    n in t.byNative ==>
      var id := t.byNative[n];
      IsId(t, id) && t.slots[id - 1].open && t.slots[id - 1].token.native == n
  }

  predicate OpenSlotOk(t: Table, i: nat) {
    i < |t.slots| && t.slots[i].open ==>
      var n := t.slots[i].token.native;
      n in t.byNative && t.byNative[n] == i + 1
  }

  /** The map from native handles and the open slots are inverse. */
  ghost predicate NativeOk(t: Table) {
    (forall n: nat :: NativeEntryOk(t, n)) && forall i: nat :: OpenSlotOk(t, i)
  }

  ghost predicate TableOk(t: Table) {
    SlotsOk(t) && FreeOk(t) && NativeOk(t)
  }

  function Taken(e: Slot, token: Token): Slot {
    Slot(token, if e.bump then e.generation + 1 else e.generation, true, false, false)
  }

  /** A slot that can be taken, and a key that fits. */
  predicate Usable(t: Table, id: nat) {
    Reusable(t, id) && id <= MAX_ASSOCIATIONS && SlotOk(t.slots[id - 1])
  }

  lemma LastFreeUsable(t: Table)
    requires TableOk(t)
    ensures t.free != [] ==> Usable(t, t.free[|t.free| - 1])
  {
    if t.free != [] {
      assert t.free[|t.free| - 1] in t.free;
    }
  }

  function TakenKey(t: Table, token: Token): Key
    requires t.free != [] && Reusable(t, t.free[|t.free| - 1])
  {
    var id := t.free[|t.free| - 1];
    Key(id, Taken(t.slots[id - 1], token).generation)
  }

  function TakenFree(t: Table, token: Token): Table
    requires t.free != [] && Reusable(t, t.free[|t.free| - 1])
  {
    var id := t.free[|t.free| - 1];
    Table(t.slots[id - 1 := Taken(t.slots[id - 1], token)], t.free[..|t.free| - 1], t.byNative[token.native := id])
  }

  /** A new association takes the most recently freed slot, or else appends one. */
  ghost function Create(t: Table, capacity: nat, token: Token): (Table, Result<Key, ErrorCode>)
    requires FreeOk(t)
  {
    if t.free != [] then
      assert t.free[|t.free| - 1] in t.free;
      (TakenFree(t, token), Ok(TakenKey(t, token)))
    else if |t.slots| >= capacity then (t, Err(ResourceExhausted))
    else
      var id := |t.slots| + 1;
      (Table(t.slots + [Slot(token, 1, true, false, false)], t.free, t.byNative[token.native := id]), Ok(Key(id, 1)))
  }

  function Rollback(t: Table, key: Key): Table {
    if !IsId(t, key.association) || t.slots[key.association - 1].generation != key.generation then t
    else
      var id := key.association;
      var e := t.slots[id - 1];
      var n := e.token.native;
      Table(t.slots[id - 1 := Slot(NO_TOKEN, e.generation, false, true, false)],
            if e.reusable then t.free else t.free + [id],
            if n in t.byNative && t.byNative[n] == id then t.byNative - {n} else t.byNative)
  }

  /** Closing bumps the generation at the next reuse; a slot whose generations are used up is never reused. */
  function CloseAssociation(t: Table, token: Token): Table {
    if token.native !in t.byNative then t
    else
      var id := t.byNative[token.native];
      if !IsId(t, id) then t.(byNative := t.byNative - {token.native})
      else
        var e := t.slots[id - 1];
        if e.token != token then t
        else if e.generation < LOW_MASK then
          Table(t.slots[id - 1 := Slot(NO_TOKEN, e.generation, false, true, true)],
                if e.reusable then t.free else t.free + [id], t.byNative - {token.native})
        else
          Table(t.slots[id - 1 := Slot(NO_TOKEN, e.generation, false, false, false)], t.free, t.byNative - {token.native})
  }

  function KeyFor(t: Table, r: Registry, token: Token): Result<Key, ErrorCode> {
    if token.native !in t.byNative then Err(InvalidState)
    else
      var id := t.byNative[token.native];
      if !IsId(t, id) then Err(InvalidState)
      else if !t.slots[id - 1].open || t.slots[id - 1].token != token || !Current(r, token) then Err(InvalidState)
      else Ok(Key(id, t.slots[id - 1].generation))
  }

  /** The handle a completion key stands for now. */
  function Resolve(t: Table, r: Registry, key: Key): Option<Token> {
    if !IsId(t, key.association) then None
    else
      var e := t.slots[key.association - 1];
      if !e.open || e.generation != key.generation || !Current(r, e.token) then None else Some(e.token)
  }

  lemma NoDuplicatesAppend(ids: seq<nat>, id: nat)
    requires NoDuplicates(ids) && id !in ids
    ensures NoDuplicates(ids + [id])
  {
  }

  /** `t'` is `t` with slot `id` set. */
  ghost predicate SetsSlot(t: Table, t': Table, id: nat, e: Slot) {
    && 0 < id <= |t'.slots| && t'.slots[id - 1] == e && |t.slots| <= |t'.slots|
    && (|t'.slots| > |t.slots| ==> id == |t'.slots| == |t.slots| + 1)
    && forall i :: 0 <= i < |t.slots| && i != id - 1 ==> t'.slots[i] == t.slots[i]
  }

  lemma OpeningKeepsNative(t: Table, t': Table, id: nat, e: Slot)
    requires NativeOk(t) && SetsSlot(t, t', id, e) && e.open && e.token.native !in t.byNative
    requires id <= |t.slots| ==> !t.slots[id - 1].open
    requires t'.byNative == t.byNative[e.token.native := id]
    ensures NativeOk(t')
  {
    forall n: nat
      ensures NativeEntryOk(t', n)
    {
      assert NativeEntryOk(t, n);
    }
    forall i: nat
      ensures OpenSlotOk(t', i)
    {
      assert OpenSlotOk(t, i);
    }
  }

  lemma ClosingKeepsNative(t: Table, t': Table, id: nat, e: Slot)
    requires NativeOk(t) && SetsSlot(t, t', id, e) && !e.open && IsId(t, id) && t.slots[id - 1].open
    requires t'.byNative == t.byNative - {t.slots[id - 1].token.native} && |t'.slots| == |t.slots|
    ensures NativeOk(t')
  {
    assert OpenSlotOk(t, id - 1);
    forall n: nat
      ensures NativeEntryOk(t', n)
    {
      assert NativeEntryOk(t, n);
    }
    forall i: nat
      ensures OpenSlotOk(t', i)
    {
      assert OpenSlotOk(t, i);
    }
  }

  lemma SettingKeepsSlots(t: Table, t': Table, id: nat, e: Slot)
    requires SlotsOk(t) && SetsSlot(t, t', id, e) && SlotOk(e) && |t'.slots| <= MAX_ASSOCIATIONS
    ensures SlotsOk(t')
  {
    forall i | 0 <= i < |t'.slots|
      ensures SlotOk(t'.slots[i])
    {
      if i != id - 1 {
        assert t'.slots[i] == t.slots[i];
      }
    }
  }

  /** The last free id leaves the list when its slot is taken. */
  lemma TakingKeepsFree(t: Table, t': Table, e: Slot)
    requires FreeOk(t) && t.free != [] && SetsSlot(t, t', t.free[|t.free| - 1], e) && !e.reusable
    requires |t'.slots| == |t.slots| && t'.free == t.free[..|t.free| - 1]
    ensures FreeOk(t')
  {
    var last := t.free[|t.free| - 1];
    assert t.free == t'.free + [last];
    forall id: nat
      ensures id in t'.free <==> Reusable(t', id)
    {
      assert id in t.free <==> Reusable(t, id);
      assert id in t'.free <==> id in t.free && id != last;
    }
  }

  lemma FreeingKeepsFree(t: Table, t': Table, id: nat, e: Slot)
    requires FreeOk(t) && SetsSlot(t, t', id, e) && IsId(t, id) && !t.slots[id - 1].reusable
    requires |t'.slots| == |t.slots| && t'.free == if e.reusable then t.free + [id] else t.free
    ensures FreeOk(t')
  {
    assert id !in t.free by {
      assert !Reusable(t, id);
    }
    NoDuplicatesAppend(t.free, id);
    forall k: nat
      ensures k in t'.free <==> Reusable(t', k)
    {
      assert k in t.free <==> Reusable(t, k);
    }
  }

  lemma AppendingKeepsFree(t: Table, t': Table, e: Slot)
    requires FreeOk(t) && SetsSlot(t, t', |t.slots| + 1, e) && !e.reusable && t'.free == t.free
    ensures FreeOk(t')
  {
    forall k: nat
      ensures k in t'.free <==> Reusable(t', k)
    {
      assert k in t.free <==> Reusable(t, k);
    }
  }

  lemma CreateKeepsOk(t: Table, capacity: nat, token: Token)
    requires TableOk(t) && capacity <= MAX_ASSOCIATIONS && token.native !in t.byNative
    ensures TableOk(Create(t, capacity, token).0)
  {
    var t' := Create(t, capacity, token).0;
    if t.free != [] {
      var id := t.free[|t.free| - 1];
      assert id in t.free && Reusable(t, id) && SlotOk(t.slots[id - 1]);
      var e := Taken(t.slots[id - 1], token);
      assert SetsSlot(t, t', id, e);
      SettingKeepsSlots(t, t', id, e);
      TakingKeepsFree(t, t', e);
      OpeningKeepsNative(t, t', id, e);
    } else if |t.slots| < capacity {
      var id, e := |t.slots| + 1, Slot(token, 1, true, false, false);
      assert SetsSlot(t, t', id, e);
      SettingKeepsSlots(t, t', id, e);
      AppendingKeepsFree(t, t', e);
      OpeningKeepsNative(t, t', id, e);
    }
  }

  lemma FreedOk(t: Table, t': Table, id: nat, e: Slot)
    requires TableOk(t) && IsId(t, id) && t.slots[id - 1].open && SlotOk(e) && !e.open
    requires t' == Table(t.slots[id - 1 := e], if e.reusable then t.free + [id] else t.free,
                         t.byNative - {t.slots[id - 1].token.native})
    ensures TableOk(t')
  {
    assert SlotOk(t.slots[id - 1]);
    assert SetsSlot(t, t', id, e);
    SettingKeepsSlots(t, t', id, e);
    FreeingKeepsFree(t, t', id, e);
    ClosingKeepsNative(t, t', id, e);
  }

  lemma RollbackKeepsOk(t: Table, key: Key)
    requires TableOk(t) && IsId(t, key.association) && t.slots[key.association - 1].open
    ensures TableOk(Rollback(t, key))
  {
    var i: nat := key.association - 1;
    var e := t.slots[i];
    assert SlotOk(e) && OpenSlotOk(t, i);
    if e.generation == key.generation {
      FreedOk(t, Rollback(t, key), key.association, Slot(NO_TOKEN, e.generation, false, true, false));
    }
  }

  lemma CloseKeepsOk(t: Table, token: Token)
    requires TableOk(t)
    ensures TableOk(CloseAssociation(t, token))
  {
    assert NativeEntryOk(t, token.native);
    if token.native in t.byNative {
      var id := t.byNative[token.native];
      var e := t.slots[id - 1];
      assert SlotOk(e);
      if e.token == token {
        FreedOk(t, CloseAssociation(t, token), id,
                Slot(NO_TOKEN, e.generation, false, e.generation < LOW_MASK, e.generation < LOW_MASK));
      }
    }
  }

  // Registration and closing together with the handle registry

  predicate SlotLinked(t: Table, r: Registry, i: nat) {
    i < |t.slots| && t.slots[i].open ==> Current(r, t.slots[i].token)
  }

  predicate HandleLinked(t: Table, r: Registry, n: nat) {
    IsOpen(r, n) ==>
      n in t.byNative && IsId(t, t.byNative[n]) && t.slots[t.byNative[n] - 1].token == Token(n, r[n].generation)
  }

  /** Open slots carry exactly the current tokens. */
  ghost predicate Linked(t: Table, r: Registry) {
    (forall i: nat :: SlotLinked(t, r, i)) && forall n: nat :: HandleLinked(t, r, n)
  }

  ghost predicate Inv(t: Table, r: Registry) {
    TableOk(t) && Linked(t, r)
  }

  /** `associated` is the outcome of the system call. */
  ghost function Register(t: Table, r: Registry, capacity: nat, native: nat, associated: bool)
    : (Table, Registry, Result<Token, ErrorCode>)
    requires FreeOk(t)
  {
    var token := RegisterResult(r, native);
    if token.Err? then (t, r, token)
    else
      var r' := Registered(r, native);
      var (t', key) := Create(t, capacity, token.value);
      if key.Err? then (t', ClosedRegistry(r', token.value), Err(key.error))
      else if Pack(key.value).Err? || !associated then
        (Rollback(t', key.value), ClosedRegistry(r', token.value), Err(BackendFailure(0)))
      else (t', r', token)
  }

  /** The key of a new association always fits into a completion key. */
  lemma RegisterPacks(t: Table, r: Registry, capacity: nat, native: nat)
    requires TableOk(t) && capacity <= MAX_ASSOCIATIONS && RegisterResult(r, native).Ok?
    ensures var key := Create(t, capacity, RegisterResult(r, native).value).1;
            && (key.Ok? <==> t.free != [] || |t.slots| < capacity)
            && (key.Ok? ==> Pack(key.value).Ok?)
  {
    LastFreeUsable(t);
  }

  function CloseHandle(t: Table, r: Registry, token: Token): (Table, Registry) {
    if !Current(r, token) then (t, r) else (CloseAssociation(t, token), ClosedRegistry(r, token))
  }

  lemma CreateLinks(t: Table, r: Registry, capacity: nat, native: nat)
    requires Inv(t, r) && capacity <= MAX_ASSOCIATIONS && RegisterResult(r, native).Ok?
    ensures var token := RegisterResult(r, native).value;
            var (t', key) := Create(t, capacity, token);
            && TableOk(t')
            && (key.Err? ==> t' == t)
            && (key.Ok? ==>
                  && Inv(t', Registered(r, native)) && IsId(t', key.value.association)
                  && t'.slots[key.value.association - 1] == Slot(token, key.value.generation, true, false, false)
                  && Pack(key.value).Ok?)
  {
    var token := RegisterResult(r, native).value;
    NativeIsFree(t, r, native);
    CreateKeepsOk(t, capacity, token);
    var (t', key) := Create(t, capacity, token);
    if key.Ok? {
      var id, e := key.value.association, Slot(token, key.value.generation, true, false, false);
      if t.free != [] {
        assert id in t.free && Reusable(t, id) && SlotOk(t.slots[id - 1]);
      }
      assert SetsSlot(t, t', id, e);
      assert SlotOk(e);
      PackRoundTrip(key.value);
      OpeningLinks(t, t', r, id, e, native);
    }
  }

  lemma NativeIsFree(t: Table, r: Registry, native: nat)
    requires Inv(t, r) && !IsOpen(r, native)
    ensures native !in t.byNative
  {
    assert NativeEntryOk(t, native);
    var i: nat := if native in t.byNative then t.byNative[native] - 1 else 0;
    assert SlotLinked(t, r, i);
  }

  lemma OpeningLinks(t: Table, t': Table, r: Registry, id: nat, e: Slot, native: nat)
    requires Linked(t, r) && SetsSlot(t, t', id, e) && !IsOpen(r, native)
    requires RegisterResult(r, native) == Ok(e.token)
    requires NativeOk(t) && (id <= |t.slots| ==> !t.slots[id - 1].open)
    requires t'.byNative == t.byNative[native := id]
    ensures Linked(t', Registered(r, native))
  {
    var r' := Registered(r, native);
    RegisterIsFresh(r, native);
    forall i: nat
      ensures SlotLinked(t', r', i)
    {
      assert SlotLinked(t, r, i);
    }
    forall n: nat
      ensures HandleLinked(t', r', n)
    {
      assert HandleLinked(t, r, n) && NativeEntryOk(t, n);
    }
  }

  /** Registering a handle and closing it at once leaves the table as it should be. */
  lemma ReclosingKeepsLinks(t: Table, r: Registry, native: nat)
    requires Linked(t, r) && RegisterResult(r, native).Ok?
    ensures Linked(t, ClosedRegistry(Registered(r, native), RegisterResult(r, native).value))
  {
    var r' := ClosedRegistry(Registered(r, native), RegisterResult(r, native).value);
    forall i: nat
      ensures SlotLinked(t, r', i)
    {
      assert SlotLinked(t, r, i);
    }
    forall n: nat
      ensures HandleLinked(t, r', n)
    {
      assert HandleLinked(t, r, n);
    }
  }

  lemma ClosingUnlinks(t: Table, t': Table, r: Registry, id: nat, e: Slot)
    requires Inv(t, r) && SetsSlot(t, t', id, e) && !e.open && IsId(t, id) && |t'.slots| == |t.slots|
    requires t.slots[id - 1].open && t'.byNative == t.byNative - {t.slots[id - 1].token.native}
    ensures Linked(t', ClosedRegistry(r, t.slots[id - 1].token))
  {
    var index: nat := id - 1;
    var token := t.slots[index].token;
    assert SlotLinked(t, r, index) && OpenSlotOk(t, index);
    var r' := ClosedRegistry(r, token);
    forall i: nat
      ensures SlotLinked(t', r', i)
    {
      assert SlotLinked(t, r, i) && OpenSlotOk(t, i);
    }
    forall n: nat
      ensures HandleLinked(t', r', n)
    {
      assert HandleLinked(t, r, n);
    }
  }

  lemma RollbackUnlinks(t: Table, r: Registry, key: Key)
    requires Inv(t, r) && IsId(t, key.association)
    requires t.slots[key.association - 1].open && t.slots[key.association - 1].generation == key.generation
    ensures Inv(Rollback(t, key), ClosedRegistry(r, t.slots[key.association - 1].token))
  {
    var i: nat := key.association - 1;
    var e := t.slots[i];
    assert OpenSlotOk(t, i);
    RollbackKeepsOk(t, key);
    ClosingUnlinks(t, Rollback(t, key), r, key.association, Slot(NO_TOKEN, e.generation, false, true, false));
  }

  lemma CloseHandleKeepsInv(t: Table, r: Registry, token: Token)
    requires Inv(t, r)
    ensures var (t', r') := CloseHandle(t, r, token); Inv(t', r')
  {
    if Current(r, token) {
      CloseKeepsOk(t, token);
      assert HandleLinked(t, r, token.native) && NativeEntryOk(t, token.native);
      var id := t.byNative[token.native];
      var e := CloseAssociation(t, token).slots[id - 1];
      ClosingUnlinks(t, CloseAssociation(t, token), r, id, e);
    }
  }

  lemma RegisterKeepsInv(t: Table, r: Registry, capacity: nat, native: nat, associated: bool)
    requires Inv(t, r) && capacity <= MAX_ASSOCIATIONS
    ensures var (t', r', token) := Register(t, r, capacity, native, associated); Inv(t', r')
  {
    if RegisterResult(r, native).Ok? {
      var token := RegisterResult(r, native).value;
      CreateLinks(t, r, capacity, native);
      var (t', key) := Create(t, capacity, token);
      if key.Ok? {
        RollbackUnlinks(t', Registered(r, native), key.value);
      } else {
        ReclosingKeepsLinks(t, r, native);
      }
    }
  }

  /** While a handle is open its key exists, packs, and resolves to that handle and no other. */
  lemma OpenHandlesResolve(t: Table, r: Registry, token: Token)
    requires Inv(t, r)
    ensures KeyFor(t, r, token).Ok? <==> Current(r, token)
    ensures Current(r, token) ==>
              && Pack(KeyFor(t, r, token).value).Ok?
              && Resolve(t, r, KeyFor(t, r, token).value) == Some(token)
    ensures forall key :: Resolve(t, r, key) == Some(token) ==> KeyFor(t, r, token) == Ok(key)
  {
    assert HandleLinked(t, r, token.native) && NativeEntryOk(t, token.native);
    if Current(r, token) {
      var i: nat := t.byNative[token.native] - 1;
      assert SlotOk(t.slots[i]);
      PackRoundTrip(KeyFor(t, r, token).value);
    }
    forall key | Resolve(t, r, key) == Some(token)
      ensures KeyFor(t, r, token) == Ok(key)
    {
      var i: nat := key.association - 1;
      assert OpenSlotOk(t, i);
    }
  }

  lemma RegistryLater(t: Table, r: Registry, capacity: nat, native: nat, associated: bool)
    requires FreeOk(t)
    ensures Later(r, Register(t, r, capacity, native, associated).1)
  {
    if RegisterResult(r, native).Ok? {
      var r', token := Registered(r, native), RegisterResult(r, native).value;
      StepsAreLater(r, native, token);
      StepsAreLater(r', native, token);
      LaterTransitive(r, r', ClosedRegistry(r', token));
    }
  }

  /** Registering another handle changes neither the currency nor the key of an open one. */
  lemma RegisterKeepsKeys(t: Table, r: Registry, capacity: nat, native: nat, associated: bool, token: Token)
    requires Inv(t, r) && capacity <= MAX_ASSOCIATIONS && Current(r, token)
    ensures var (t', r', _) := Register(t, r, capacity, native, associated);
            Current(r', token) && KeyFor(t', r', token) == KeyFor(t, r, token)
  {
    assert HandleLinked(t, r, token.native) && NativeEntryOk(t, token.native);
    if RegisterResult(r, native).Ok? {
      assert token.native != native;
      CreateLinks(t, r, capacity, native);
      if t.free != [] {
        var id := t.free[|t.free| - 1];
        assert id in t.free && Reusable(t, id);
        assert SlotOk(t.slots[id - 1]);
      }
    }
  }

  /** Closing one handle leaves the key of another. */
  lemma CloseKeepsOtherKeys(t: Table, r: Registry, token: Token, other: Token)
    requires Inv(t, r) && Current(r, token) && Current(r, other) && token != other
    ensures var (t', r') := CloseHandle(t, r, token);
            Current(r', other) && KeyFor(t', r', other) == KeyFor(t, r, other)
  {
    assert HandleLinked(t, r, token.native) && NativeEntryOk(t, token.native);
    assert HandleLinked(t, r, other.native) && NativeEntryOk(t, other.native);
  }

  // Keys of closed handles

  /** The key's slot has moved past it or never opens with it again. */
  predicate Spent(t: Table, key: Key) {
    && IsId(t, key.association)
    && var e := t.slots[key.association - 1];
       key.generation < e.generation || (key.generation == e.generation && !e.open && (e.bump || !e.reusable))
  }

  lemma SpentNeverResolves(t: Table, r: Registry, key: Key)
    requires Spent(t, key)
    ensures Resolve(t, r, key).None?
  {
  }

  /** Closing a handle spends its key. */
  lemma CloseSpends(t: Table, r: Registry, token: Token)
    requires Inv(t, r) && Current(r, token)
    ensures KeyFor(t, r, token).Ok? && Spent(CloseHandle(t, r, token).0, KeyFor(t, r, token).value)
  {
    assert HandleLinked(t, r, token.native) && NativeEntryOk(t, token.native);
  }

  lemma CreateKeepsSpent(t: Table, capacity: nat, token: Token, key: Key)
    requires TableOk(t) && Spent(t, key)
    ensures var (t', made) := Create(t, capacity, token);
            Spent(t', key) && (made.Ok? ==> made.value != key && !Spent(t', made.value))
  {
    if t.free != [] {
      var id := t.free[|t.free| - 1];
      assert id in t.free && Reusable(t, id);
    }
  }

  lemma RegisterKeepsSpent(t: Table, r: Registry, capacity: nat, native: nat, associated: bool, key: Key)
    requires Inv(t, r) && capacity <= MAX_ASSOCIATIONS && Spent(t, key)
    ensures Spent(Register(t, r, capacity, native, associated).0, key)
  {
    if RegisterResult(r, native).Ok? {
      CreateKeepsSpent(t, capacity, RegisterResult(r, native).value, key);
      CreateLinks(t, r, capacity, native);
    }
  }

  lemma CloseKeepsSpent(t: Table, r: Registry, token: Token, key: Key)
    requires Inv(t, r) && Spent(t, key)
    ensures Spent(CloseHandle(t, r, token).0, key)
  {
    assert NativeEntryOk(t, token.native);
  }

  // Runs

  datatype Event = RegisterEvent(native: nat, associated: bool) | CloseEvent(token: Token)

  ghost function Step(t: Table, r: Registry, capacity: nat, e: Event): (Table, Registry)
    requires FreeOk(t)
  {
    match e
    case RegisterEvent(native, associated) =>
      (Register(t, r, capacity, native, associated).0, Register(t, r, capacity, native, associated).1)
    case CloseEvent(token) => CloseHandle(t, r, token)
  }

  lemma StepKeepsInv(t: Table, r: Registry, capacity: nat, e: Event)
    requires Inv(t, r) && capacity <= MAX_ASSOCIATIONS
    ensures Inv(Step(t, r, capacity, e).0, Step(t, r, capacity, e).1)
  {
    match e
    case RegisterEvent(native, associated) => RegisterKeepsInv(t, r, capacity, native, associated);
    case CloseEvent(token) => CloseHandleKeepsInv(t, r, token);
  }

  /** `states` are the tables and registries that a run passes through. */
  ghost predicate IsRun(states: seq<(Table, Registry)>, capacity: nat, events: seq<Event>) {
    && |states| == |events| + 1
    && states[0] == (EMPTY_TABLE, map[])
    && forall i :: 0 <= i < |events| ==>
         FreeOk(states[i].0) && states[i + 1] == Step(states[i].0, states[i].1, capacity, events[i])
  }

  lemma {:induction false} RunKeepsInv(states: seq<(Table, Registry)>, capacity: nat, events: seq<Event>, n: nat)
    requires IsRun(states, capacity, events) && capacity <= MAX_ASSOCIATIONS && n <= |events|
    ensures Inv(states[n].0, states[n].1)
  {
    if n > 0 {
      RunKeepsInv(states, capacity, events, n - 1);
      StepKeepsInv(states[n - 1].0, states[n - 1].1, capacity, events[n - 1]);
      assert states[n] == Step(states[n - 1].0, states[n - 1].1, capacity, events[n - 1]);
    } else {
      assert states[0] == (EMPTY_TABLE, map[]);
    }
  }

  lemma StepKeepsSpent(t: Table, r: Registry, capacity: nat, e: Event, key: Key)
    requires Inv(t, r) && capacity <= MAX_ASSOCIATIONS && Spent(t, key)
    ensures Spent(Step(t, r, capacity, e).0, key)
  {
    match e
    case RegisterEvent(native, associated) => RegisterKeepsSpent(t, r, capacity, native, associated, key);
    case CloseEvent(token) => CloseKeepsSpent(t, r, token, key);
  }

  lemma {:induction false} SpentStays(states: seq<(Table, Registry)>, capacity: nat, events: seq<Event>, m: nat, n: nat, key: Key)
    requires IsRun(states, capacity, events) && capacity <= MAX_ASSOCIATIONS && m <= n <= |events|
    requires Spent(states[m].0, key)
    ensures Spent(states[n].0, key)
    decreases n
  {
    if m < n {
      SpentStays(states, capacity, events, m, n - 1, key);
      RunKeepsInv(states, capacity, events, n - 1);
      StepKeepsSpent(states[n - 1].0, states[n - 1].1, capacity, events[n - 1], key);
      assert states[n] == Step(states[n - 1].0, states[n - 1].1, capacity, events[n - 1]);
    }
  }

  /** The key of a handle that is closed in a run resolves to nothing from then on, whatever is registered later. */
  lemma ClosedKeyNeverResolves(states: seq<(Table, Registry)>, capacity: nat, events: seq<Event>, m: nat, n: nat)
    requires IsRun(states, capacity, events) && capacity <= MAX_ASSOCIATIONS && m < n <= |events|
    requires events[m].CloseEvent? && Current(states[m].1, events[m].token)
    ensures KeyFor(states[m].0, states[m].1, events[m].token).Ok?
    ensures Resolve(states[n].0, states[n].1, KeyFor(states[m].0, states[m].1, events[m].token).value).None?
  {
    RunKeepsInv(states, capacity, events, m);
    var (t, r) := states[m];
    CloseSpends(t, r, events[m].token);
    var key := KeyFor(t, r, events[m].token).value;
    assert states[m + 1] == Step(t, r, capacity, events[m]);
    SpentStays(states, capacity, events, m + 1, n, key);
    SpentNeverResolves(states[n].0, states[n].1, key);
  }

  class AssociationTable {
    const capacity: nat
    var slots: seq<Slot>
    var free: seq<nat>
    var byNative: map<nat, nat>

    ghost function State(): Table
      reads this
    {
      Table(slots, free, byNative)
    }

    ghost predicate Valid()
      reads this
    {
      TableOk(State()) && 0 < capacity <= MAX_ASSOCIATIONS
    }

    constructor (capacity: nat)
      ensures Valid() && State() == EMPTY_TABLE
      ensures this.capacity == Min(if capacity == 0 then 1 else capacity, MAX_ASSOCIATIONS)
    {
      this.capacity := Min(if capacity == 0 then 1 else capacity, MAX_ASSOCIATIONS);
      slots, free, byNative := [], [], map[];
    }

    /**
     `create_association`. On a valid table the branches that skip or fail are dead, so
     exactly one id leaves a non-empty free list.
     */
    method CreateAssociation(token: Token) returns (r: Result<Key, ErrorCode>)
      modifies this
      ensures old(Valid() && token.native !in byNative) ==>
                Valid() && (State(), r) == Create(old(State()), capacity, token)
    {
      ghost var before := State();
      if Valid() && token.native !in byNative {
        CreateKeepsOk(before, capacity, token);
        LastFreeUsable(before);
      }
      var taken := TakeFree(token);
      if taken.Some? {
        return taken.value;
      }
      if |slots| >= capacity {
        return Err(ResourceExhausted);
      }
      var key := Key(|slots| + 1, 1);
      PackRoundTrip(key);
      if Pack(key).Err? {
        return Err(InvalidState);
      }
      slots := slots + [Slot(token, 1, true, false, false)];
      byNative := byNative[token.native := key.association];
      return Ok(key);
    }

    /** The loop over the free list: the last free slot is taken if it can be used. */
    method TakeFree(token: Token) returns (r: Option<Result<Key, ErrorCode>>)
      modifies this
      ensures old(free) == [] ==> r.None? && State() == old(State())
      ensures old(free != [] && Usable(State(), free[|free| - 1])) ==>
                && r == Some(Ok(TakenKey(old(State()), token)))
                && State() == TakenFree(old(State()), token)
    {
      ghost var usual := free != [] && Usable(State(), free[|free| - 1]);
      while free != []
        invariant usual || old(free) == [] ==> State() == old(State())
        decreases |free|
      {
        var id := free[|free| - 1];
        free := free[..|free| - 1];
        if id == 0 || id > |slots| {
          continue;
        }
        var entry := slots[id - 1];
        if entry.open || !entry.reusable {
          continue;
        }
        if entry.bump {
          if entry.generation >= LOW_MASK {
            slots := slots[id - 1 := entry.(reusable := false, bump := false)];
            continue;
          }
          entry := entry.(generation := entry.generation + 1);
        } else if entry.generation == 0 {
          entry := entry.(generation := 1);
        }
        var key := Key(id, entry.generation);
        PackRoundTrip(key);
        if Pack(key).Err? {
          slots := slots[id - 1 := entry.(reusable := false, bump := false)];
          return Some(Err(InvalidState));
        }
        slots := slots[id - 1 := Slot(token, entry.generation, true, false, false)];
        byNative := byNative[token.native := id];
        return Some(Ok(key));
      }
      return None;
    }

    method RollbackAssociation(key: Key)
      modifies this
      ensures State() == Rollback(old(State()), key)
      ensures old(Valid() && IsId(State(), key.association) && slots[key.association - 1].open) ==> Valid()
    {
      if Valid() && IsId(State(), key.association) && slots[key.association - 1].open {
        RollbackKeepsOk(State(), key);
      }
      if key.association == 0 || key.association > |slots| {
        return;
      }
      var index := key.association - 1;
      if slots[index].generation != key.generation {
        return;
      }
      var native := slots[index].token.native;
      if native in byNative && byNative[native] == key.association {
        byNative := byNative - {native};
      }
      var wasReusable := slots[index].reusable;
      slots := slots[index := slots[index].(open := false, token := NO_TOKEN, bump := false, reusable := true)];
      if !wasReusable {
        free := free + [key.association];
      }
    }

    method Close(token: Token)
      modifies this
      ensures State() == CloseAssociation(old(State()), token)
      ensures old(Valid()) ==> Valid()
    {
      if Valid() {
        CloseKeepsOk(State(), token);
      }
      if token.native !in byNative {
        return;
      }
      var id := byNative[token.native];
      if id == 0 || id > |slots| {
        byNative := byNative - {token.native};
        return;
      }
      var entry := slots[id - 1];
      if entry.token != token {
        return;
      }
      byNative := byNative - {token.native};
      if entry.generation < LOW_MASK {
        slots := slots[id - 1 := entry.(open := false, token := NO_TOKEN, bump := true, reusable := true)];
        if !entry.reusable {
          free := free + [id];
        }
      } else {
        slots := slots[id - 1 := entry.(open := false, token := NO_TOKEN, bump := false, reusable := false)];
      }
    }

    method Clear()
      modifies this
      ensures State() == EMPTY_TABLE
    {
      slots, free, byNative := [], [], map[];
    }
  }
}
