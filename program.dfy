/** The extraction: the builders that turn each reflection object into a portable
    record, the type registry they share, and the assembly of the document. Every
    exception of the original (a failing HRESULT, a null or duplicate dictionary
    key, a negative span length, an array store past the end) ends the whole run;
    here each is an `Err` that the callers pass on. */
module App {
  import opened Base
  import D3D
  import opened ShaderReflections
  import opened Utils

  datatype BuildError =
    | DescriptorReadFailed        // `ThrowHResult` on a failing `GetDesc`-style call
    | NullKey                     // a null name used as a dictionary key
    | DuplicateKey(key: string)   // `Dictionary.Add` on a key already present
    | NegativeLength              // a `Span` whose `(int)` length came out negative
    | NativeMemoryFault           // reading through a null or too-short native pointer
    | IndexOutOfRange             // an array store past the end

  datatype Result<+T> = Ok(value: T) | Err(error: BuildError)
  {
    predicate IsFailure() { Err? }

    function PropagateFailure<U>(): Result<U>
      requires Err?
    {
      Err(error)
    }

    function Extract(): T
      requires Ok?
    {
      value
    }
  }

  // ------------------------------------------------------------------ type registry

  /** The `Dictionary<string, ShaderTypeDef>` every type resolution shares. */
  class TypeRegistry {
    var defs: map<string, ShaderTypeDef>

    constructor()
      ensures defs == map[]
    {
      defs := map[];
    }

    /** `Dictionary.Add`: a key already present throws. */
    method Add(key: string, t: ShaderTypeDef) returns (r: Result<()>)
      modifies this
      ensures key in old(defs) ==> r == Err(DuplicateKey(key)) && defs == old(defs)
      ensures key !in old(defs) ==> r == Ok(()) && defs == old(defs)[key := t]
    {
      if key in defs {
        return Err(DuplicateKey(key));
      }
      defs := defs[key := t];
      r := Ok(());
    }
  }

  /** `Guid.NewGuid().ToString()`: the `drawn`-th name of a supply of names. */
  class GuidSource {
    const supply: nat -> string
    var drawn: nat

    constructor(supply: nat -> string)
      ensures this.supply == supply && drawn == 0
    {
      this.supply := supply;
      drawn := 0;
    }

    method NewGuid() returns (s: string)
      modifies this
      ensures s == supply(old(drawn)) && drawn == old(drawn) + 1
    {
      s := supply(drawn);
      drawn := drawn + 1;
    }
  }

  /** Every entry is stored under its own name, and (reference integrity) every
      member name of every entry is itself a key. */
  predicate Coherent(defs: map<string, ShaderTypeDef>) {
    (forall k :: k in defs ==> defs[k].name == k) &&
    forall k, j :: k in defs && defs[k].members.Some? && 0 <= j < |defs[k].members.value| ==>
      defs[k].members.value[j] in defs
  }

  /** The registry only grows: earlier keys keep their entries. */
  predicate Extends(before: map<string, ShaderTypeDef>, after: map<string, ShaderTypeDef>) {
    forall k :: k in before ==> k in after && after[k] == before[k]
  }

  /** Every key added is a native type name or a GUID drawn in between. */
  ghost predicate NewKeysFrom(before: map<string, ShaderTypeDef>, after: map<string, ShaderTypeDef>,
                              names: set<string>, supply: nat -> string, d0: nat, d1: nat) {
    forall k :: k in after && k !in before ==> k in names || exists j :: d0 <= j < d1 && supply(j) == k
  }

  /** The names the supply hands out from `from` on are distinct, are no key yet
      and are no native type name: `Guid.NewGuid` taken as fresh. */
  ghost predicate FreshSupply(supply: nat -> string, from: nat, defs: map<string, ShaderTypeDef>, names: set<string>) {
    (forall j, j' :: from <= j < j' ==> supply(j) != supply(j')) &&
    (forall j :: from <= j ==> supply(j) !in defs && supply(j) !in names)
  }

  /** Every type resolution succeeds from here on: the graph is well formed, and
      either every type object has a name or the GUIDs still to be drawn are fresh. */
  ghost predicate Buildable(g: map<D3D.TypeHandle, D3D.TypeNode>, supply: nat -> string, drawn: nat,
                            defs: map<string, ShaderTypeDef>) {
    WellFormedGraph(g) && (AllNamed(g) || FreshSupply(supply, drawn, defs, D3D.NamesIn(g)))
  }

  /** Every readable type object carries a name, so no GUID is ever needed. */
  ghost predicate AllNamed(g: map<D3D.TypeHandle, D3D.TypeNode>) {
    forall h :: h in g && g[h].desc.Read? ==> g[h].desc.value.name.Some?
  }

  /** Every type object is readable and lists exactly as many member objects, all
      in the graph, as its descriptor counts. */
  ghost predicate WellFormedGraph(g: map<D3D.TypeHandle, D3D.TypeNode>) {
    forall h :: h in g ==>
      g[h].desc.Read? && |g[h].members| == g[h].desc.value.members as int &&
      forall i :: 0 <= i < |g[h].members| ==> g[h].members[i] in g
  }

  /** The type object has a name that is already a key: it resolves to that entry. */
  predicate Memoized(defs: map<string, ShaderTypeDef>, g: map<D3D.TypeHandle, D3D.TypeNode>, h: D3D.TypeHandle) {
    var d := D3D.GetTypeDesc(g, h);
    d.Read? && d.value.name.Some? && d.value.name.value in defs
  }

  /** The native name of the type object `h`, when it reads and has one. */
  function TypeNameOf(g: map<D3D.TypeHandle, D3D.TypeNode>, h: D3D.TypeHandle): Option<string> {
    var d := D3D.GetTypeDesc(g, h);
    if d.Read? then d.value.name else None
  }

  /** The native name of the `i`-th member type of `h`, when it has one. */
  function MemberNameOf(g: map<D3D.TypeHandle, D3D.TypeNode>, h: D3D.TypeHandle, i: nat): Option<string> {
    match D3D.GetMemberTypeByIndex(g, h, i)
    case None => None
    case Some(m) => TypeNameOf(g, m)
  }

  /** `t` is the flattened form of `d`, member names aside: translated class and
      type, copied shape, and a member list that is null exactly when there are no
      members and otherwise one name per member. */
  predicate Flattens(t: ShaderTypeDef, d: D3D.ShaderTypeDesc) {
    t.kind == ToShaderTypeKind(d.varClass) && t.varType == ToShaderVarType(d.varType) &&
    t.columns == d.columns && t.rows == d.rows && t.length == d.elements && t.offset == d.offset &&
    (t.members.None? <==> d.members == 0) &&
    (t.members.Some? ==> |t.members.value| == d.members as int)
  }

  /** `t` is the finished entry of the type object `h`: flattened from its
      descriptor, stored under the native name when there is one, and naming each
      member by the member's native name when that has one. */
  predicate EntryOf(t: ShaderTypeDef, g: map<D3D.TypeHandle, D3D.TypeNode>, h: D3D.TypeHandle) {
    D3D.GetTypeDesc(g, h).Read? &&
    var d := D3D.GetTypeDesc(g, h).value;
    Flattens(t, d) && (d.name.Some? ==> t.name == d.name.value) &&
    (t.members.Some? ==>
      forall i :: 0 <= i < |t.members.value| && MemberNameOf(g, h, i).Some? ==>
        t.members.value[i] == MemberNameOf(g, h, i).value)
  }

  /** `t` is the entry of the type object `h` as registered before its members
      are resolved: the flattened descriptor with no member list yet. */
  predicate PreEntryOf(t: ShaderTypeDef, g: map<D3D.TypeHandle, D3D.TypeNode>, h: D3D.TypeHandle) {
    D3D.GetTypeDesc(g, h).Read? &&
    var d := D3D.GetTypeDesc(g, h).value;
    t == ShaderTypeDef(t.name, ToShaderTypeKind(d.varClass), ToShaderVarType(d.varType),
                       d.columns, d.rows, d.elements, d.offset, None) &&
    (d.name.Some? ==> t.name == d.name.value)
  }

  /** The entry under `k` comes from the graph: while `k` is being registered (in
      `pending`, with its type object) it is that object's pre-registered entry,
      and otherwise it is the finished entry of some type object. */
  ghost predicate SourcedAt(defs: map<string, ShaderTypeDef>, pending: map<string, D3D.TypeHandle>,
                            g: map<D3D.TypeHandle, D3D.TypeNode>, k: string) {
    (k in pending ==> k in defs && PreEntryOf(defs[k], g, pending[k])) &&
    (k in defs && k !in pending ==> exists h :: EntryOf(defs[k], g, h))
  }

  /** Where the entries come from: every key, see `SourcedAt`. */
  ghost predicate Sourced(defs: map<string, ShaderTypeDef>, pending: map<string, D3D.TypeHandle>,
                          g: map<D3D.TypeHandle, D3D.TypeNode>) {
    forall k :: SourcedAt(defs, pending, g, k)
  }

  /** Pre-registering a new key puts it under registration. */
  lemma SourcedAfterRegister(defs: map<string, ShaderTypeDef>, pending: map<string, D3D.TypeHandle>,
                             g: map<D3D.TypeHandle, D3D.TypeNode>, h: D3D.TypeHandle, t: ShaderTypeDef)
    requires Sourced(defs, pending, g) && t.name !in defs && PreEntryOf(t, g, h)
    ensures Sourced(defs[t.name := t], pending[t.name := h], g) && t.name !in pending
  {
    assert SourcedAt(defs, pending, g, t.name);
    var defs', pending' := defs[t.name := t], pending[t.name := h];
    forall k
      ensures SourcedAt(defs', pending', g, k)
    {
      if k != t.name {
        assert SourcedAt(defs, pending, g, k);
      }
    }
  }

  /** Storing the finished entry over the pre-registered one ends its registration. */
  lemma SourcedAfterComplete(defs: map<string, ShaderTypeDef>, pending: map<string, D3D.TypeHandle>,
                             g: map<D3D.TypeHandle, D3D.TypeNode>, h: D3D.TypeHandle, t: ShaderTypeDef)
    requires Sourced(defs, pending[t.name := h], g) && t.name !in pending && EntryOf(t, g, h)
    ensures Sourced(defs[t.name := t], pending, g)
  {
    var defs' := defs[t.name := t];
    forall k
      ensures SourcedAt(defs', pending, g, k)
    {
      if k == t.name {
        assert EntryOf(defs'[k], g, h);
      } else {
        assert SourcedAt(defs, pending[t.name := h], g, k);
      }
    }
  }

  /** The pre-registered entry with the resolved member names filled in is the
      finished entry of its type object. */
  lemma FinishedEntry(t: ShaderTypeDef, names: seq<string>, final: ShaderTypeDef,
                      g: map<D3D.TypeHandle, D3D.TypeNode>, h: D3D.TypeHandle)
    requires PreEntryOf(t, g, h)
    requires |names| == D3D.GetTypeDesc(g, h).value.members as int
    requires forall i :: 0 <= i < |names| && MemberNameOf(g, h, i).Some? ==> names[i] == MemberNameOf(g, h, i).value
    requires final == t.(members := if |names| > 0 then Some(names) else None)
    ensures EntryOf(final, g, h) && final.name == t.name
  {
  }

  /** One step of the extraction only adds to the registry: earlier entries
      stay, every new key is a native type name or a GUID drawn during the step,
      and no GUID is drawn when every type object has a name. */
  ghost predicate Grows(before: map<string, ShaderTypeDef>, after: map<string, ShaderTypeDef>,
                        g: map<D3D.TypeHandle, D3D.TypeNode>, supply: nat -> string, d0: nat, d1: nat) {
    Extends(before, after) && d0 <= d1 &&
    NewKeysFrom(before, after, D3D.NamesIn(g), supply, d0, d1) &&
    (AllNamed(g) ==> d0 == d1)
  }

  lemma GrowsTransitive(a: map<string, ShaderTypeDef>, b: map<string, ShaderTypeDef>, c: map<string, ShaderTypeDef>,
                        g: map<D3D.TypeHandle, D3D.TypeNode>, supply: nat -> string, d0: nat, d1: nat, d2: nat)
    requires Grows(a, b, g, supply, d0, d1) && Grows(b, c, g, supply, d1, d2)
    ensures Grows(a, c, g, supply, d0, d2)
  {
  }

  /** When every type object has a name no GUID is drawn, and every key of a
      registry grown from empty is a native type name. */
  lemma OnlyNativeNames(defs: map<string, ShaderTypeDef>, g: map<D3D.TypeHandle, D3D.TypeNode>,
                        supply: nat -> string, drawn: nat)
    requires Grows(map[], defs, g, supply, 0, drawn) && AllNamed(g)
    ensures drawn == 0 && defs.Keys <= D3D.NamesIn(g)
  {
    var empty: map<string, ShaderTypeDef> := map[];
    forall k | k in defs
      ensures k in D3D.NamesIn(g)
    {
      assert k !in empty;
    }
  }

  /** Every key is a native type name or a name the supply hands out: a GUID. */
  ghost predicate KeysNamedOrDrawn(defs: map<string, ShaderTypeDef>, g: map<D3D.TypeHandle, D3D.TypeNode>,
                                   supply: nat -> string) {
    forall k :: k in defs ==> k in D3D.NamesIn(g) || exists j :: supply(j) == k
  }

  /** A registry grown from empty holds native type names and GUIDs only. */
  lemma GrownKeysNamedOrDrawn(defs: map<string, ShaderTypeDef>, g: map<D3D.TypeHandle, D3D.TypeNode>,
                              supply: nat -> string, drawn: nat)
    requires Grows(map[], defs, g, supply, 0, drawn)
    ensures KeysNamedOrDrawn(defs, g, supply)
  {
    var empty: map<string, ShaderTypeDef> := map[];
    forall k | k in defs
      ensures k in D3D.NamesIn(g) || exists j :: supply(j) == k
    {
      assert k !in empty;
    }
  }

  /** Registering the next GUID, or a native name, leaves the rest of the supply fresh. */
  lemma FreshAfterRegistering(supply: nat -> string, drawn: nat, defs: map<string, ShaderTypeDef>,
                              names: set<string>, t: ShaderTypeDef, next: nat)
    requires FreshSupply(supply, drawn, defs, names)
    requires (next == drawn + 1 && t.name == supply(drawn)) || (next == drawn && t.name in names)
    ensures FreshSupply(supply, next, defs[t.name := t], names)
  {
  }

  /** Storing the finished entry over its pre-registered form keeps the registry
      coherent and still only grown, since the key was new to the step. */
  lemma CompleteEntry(before: map<string, ShaderTypeDef>, defs: map<string, ShaderTypeDef>, t: ShaderTypeDef,
                      g: map<D3D.TypeHandle, D3D.TypeNode>, supply: nat -> string, d0: nat, d1: nat)
    requires Coherent(defs) && t.name in defs && t.name !in before
    requires t.members.Some? ==> forall i :: 0 <= i < |t.members.value| ==> t.members.value[i] in defs
    requires Grows(before, defs, g, supply, d0, d1)
    ensures Coherent(defs[t.name := t]) && Grows(before, defs[t.name := t], g, supply, d0, d1)
    ensures defs[t.name := t].Keys == defs.Keys
    ensures FreshSupply(supply, d1, defs, D3D.NamesIn(g)) ==> FreshSupply(supply, d1, defs[t.name := t], D3D.NamesIn(g))
  {
  }

  /** `BuildType`: resolves the type object `h` to an entry of the registry. A
      name already registered resolves to its entry at once; otherwise the entry is
      registered first (under the native name, or under a fresh GUID when there is
      none) and its members are resolved after, so a type may refer to itself. */
  method BuildType(reg: TypeRegistry, guids: GuidSource, g: map<D3D.TypeHandle, D3D.TypeNode>,
                   h: D3D.TypeHandle, ghost rank: map<D3D.TypeHandle, nat>, ghost pending: map<string, D3D.TypeHandle>)
    returns (r: Result<ShaderTypeDef>)
    requires D3D.RankedGraph(g, rank)
    requires Coherent(reg.defs) && Sourced(reg.defs, pending, g)
    modifies reg, guids
    decreases D3D.NamesIn(g) - reg.defs.Keys, D3D.RankOf(rank, h), 4
    ensures Coherent(reg.defs)
    ensures r.Ok? ==> Sourced(reg.defs, pending, g)
    ensures Grows(old(reg.defs), reg.defs, g, guids.supply, old(guids.drawn), guids.drawn)
    ensures D3D.GetTypeDesc(g, h).Failed? ==> r == Err(DescriptorReadFailed)
    ensures r.Ok? ==> r.value.name in reg.defs && reg.defs[r.value.name] == r.value
    ensures r.Ok? ==> D3D.GetTypeDesc(g, h).Read?
    ensures r.Ok? && D3D.GetTypeDesc(g, h).value.name.Some? ==> r.value.name == D3D.GetTypeDesc(g, h).value.name.value
    ensures Memoized(old(reg.defs), g, h) ==>
      r == Ok(old(reg.defs)[D3D.GetTypeDesc(g, h).value.name.value]) &&
      reg.defs == old(reg.defs) && guids.drawn == old(guids.drawn)
    ensures r.Ok? && !Memoized(old(reg.defs), g, h) ==>
      r.value.name !in old(reg.defs) && EntryOf(r.value, g, h) &&
      (D3D.GetTypeDesc(g, h).value.name.None? ==> r.value.name == guids.supply(old(guids.drawn)))
    ensures old(FreshSupply(guids.supply, guids.drawn, reg.defs, D3D.NamesIn(g))) ==>
      FreshSupply(guids.supply, guids.drawn, reg.defs, D3D.NamesIn(g))
    ensures (AllNamed(g) || old(FreshSupply(guids.supply, guids.drawn, reg.defs, D3D.NamesIn(g))))
            && WellFormedGraph(g) && h in g
            ==> r.Ok?
  {
    var dr := D3D.GetTypeDesc(g, h);
    if dr.Failed? {
      return Err(DescriptorReadFailed);
    }
    var d := dr.value;
    if d.name.Some? && d.name.value in reg.defs {
      return Ok(reg.defs[d.name.value]);
    }
    r := AddType(reg, guids, g, h, rank, D3D.NamesIn(g) - reg.defs.Keys, pending);
  }

  /** The registration path of `BuildType`, for a type object whose name is not
      yet a key: draws a GUID when it has no name, registers the entry with its
      members still unresolved, resolves them, then completes the entry. */
  method AddType(reg: TypeRegistry, guids: GuidSource, g: map<D3D.TypeHandle, D3D.TypeNode>,
                 h: D3D.TypeHandle, ghost rank: map<D3D.TypeHandle, nat>, ghost bound: set<string>,
                 ghost pending: map<string, D3D.TypeHandle>)
    returns (r: Result<ShaderTypeDef>)
    requires D3D.RankedGraph(g, rank)
    requires Coherent(reg.defs) && Sourced(reg.defs, pending, g)
    requires D3D.GetTypeDesc(g, h).Read? && !Memoized(reg.defs, g, h)
    requires bound == D3D.NamesIn(g) - reg.defs.Keys
    modifies reg, guids
    decreases bound, D3D.RankOf(rank, h), 3
    ensures Coherent(reg.defs)
    ensures r.Ok? ==> Sourced(reg.defs, pending, g)
    ensures Grows(old(reg.defs), reg.defs, g, guids.supply, old(guids.drawn), guids.drawn)
    ensures r.Ok? ==> r.value.name in reg.defs && reg.defs[r.value.name] == r.value
    ensures r.Ok? ==>
      r.value.name !in old(reg.defs) && EntryOf(r.value, g, h) &&
      (D3D.GetTypeDesc(g, h).value.name.None? ==> r.value.name == guids.supply(old(guids.drawn)))
    ensures old(FreshSupply(guids.supply, guids.drawn, reg.defs, D3D.NamesIn(g))) ==>
      FreshSupply(guids.supply, guids.drawn, reg.defs, D3D.NamesIn(g))
    ensures (AllNamed(g) || old(FreshSupply(guids.supply, guids.drawn, reg.defs, D3D.NamesIn(g))))
            && WellFormedGraph(g) && h in g
            ==> r.Ok?
  {
    var d := D3D.GetTypeDesc(g, h).value;
    var t :- Register(reg, guids, g, h);
    SourcedAfterRegister(old(reg.defs), pending, g, h, t);
    if d.name.Some? {
      assert t.name in bound && t.name !in D3D.NamesIn(g) - reg.defs.Keys;
    }
    r := CompleteType(reg, guids, g, h, rank, bound, pending, t, old(reg.defs), old(guids.drawn));
  }

  /** The second half of registration: resolves the members of the entry `t`
      registered for `h`, then stores the finished entry under the same key. */
  method CompleteType(reg: TypeRegistry, guids: GuidSource, g: map<D3D.TypeHandle, D3D.TypeNode>,
                      h: D3D.TypeHandle, ghost rank: map<D3D.TypeHandle, nat>, ghost bound: set<string>,
                      ghost pending: map<string, D3D.TypeHandle>, t: ShaderTypeDef,
                      ghost before: map<string, ShaderTypeDef>, ghost drawn0: nat)
    returns (r: Result<ShaderTypeDef>)
    requires D3D.RankedGraph(g, rank)
    requires Coherent(reg.defs) && Sourced(reg.defs, pending[t.name := h], g) && t.name !in pending
    requires PreEntryOf(t, g, h) && t.name in reg.defs && t.name !in before
    requires Grows(before, reg.defs, g, guids.supply, drawn0, guids.drawn)
    requires D3D.NamesIn(g) - reg.defs.Keys <= bound
    requires D3D.GetTypeDesc(g, h).value.name.Some? ==> D3D.NamesIn(g) - reg.defs.Keys < bound
    modifies reg, guids
    decreases bound, D3D.RankOf(rank, h), 2
    ensures Coherent(reg.defs)
    ensures r.Ok? ==> Sourced(reg.defs, pending, g)
    ensures Grows(before, reg.defs, g, guids.supply, drawn0, guids.drawn)
    ensures r.Ok? ==> r.value.name == t.name && t.name in reg.defs && reg.defs[t.name] == r.value && EntryOf(r.value, g, h)
    ensures old(FreshSupply(guids.supply, guids.drawn, reg.defs, D3D.NamesIn(g))) ==>
      FreshSupply(guids.supply, guids.drawn, reg.defs, D3D.NamesIn(g))
    ensures (AllNamed(g) || old(FreshSupply(guids.supply, guids.drawn, reg.defs, D3D.NamesIn(g))))
            && WellFormedGraph(g) && h in g
            ==> r.Ok?
  {
    ghost var defs1, drawn1 := reg.defs, guids.drawn;
    var resolved := ResolveMembers(reg, guids, g, h, rank, bound, pending[t.name := h]);
    GrowsTransitive(before, defs1, reg.defs, g, guids.supply, drawn0, drawn1, guids.drawn);
    if resolved.Err? {
      return Err(resolved.error);
    }
    var names := resolved.value;
    var final := t.(members := if |names| > 0 then Some(names) else None);
    FinishedEntry(t, names, final, g, h);
    CompleteEntry(before, reg.defs, final, g, guids.supply, drawn0, guids.drawn);
    SourcedAfterComplete(reg.defs, pending, g, h, final);
    reg.defs := reg.defs[final.name := final];
    r := Ok(final);
  }

  /** The first half of registration: picks the key (the native name, or a GUID
      when there is none) and adds the entry with its members still unresolved. */
  method Register(reg: TypeRegistry, guids: GuidSource, g: map<D3D.TypeHandle, D3D.TypeNode>, h: D3D.TypeHandle)
    returns (r: Result<ShaderTypeDef>)
    requires Coherent(reg.defs)
    requires D3D.GetTypeDesc(g, h).Read? && !Memoized(reg.defs, g, h)
    modifies reg, guids
    ensures Coherent(reg.defs)
    ensures Grows(old(reg.defs), reg.defs, g, guids.supply, old(guids.drawn), guids.drawn)
    ensures r.Err? ==> reg.defs == old(reg.defs)
    ensures r.Ok? ==>
      var d := D3D.GetTypeDesc(g, h).value;
      r.value.name !in old(reg.defs) && reg.defs == old(reg.defs)[r.value.name := r.value] &&
      r.value == ShaderTypeDef(r.value.name, ToShaderTypeKind(d.varClass), ToShaderVarType(d.varType),
                               d.columns, d.rows, d.elements, d.offset, None) &&
      (d.name.Some? ==> r.value.name == d.name.value) &&
      (d.name.None? ==> r.value.name == guids.supply(old(guids.drawn)))
    ensures old(FreshSupply(guids.supply, guids.drawn, reg.defs, D3D.NamesIn(g))) ==>
      FreshSupply(guids.supply, guids.drawn, reg.defs, D3D.NamesIn(g))
    ensures AllNamed(g) || old(FreshSupply(guids.supply, guids.drawn, reg.defs, D3D.NamesIn(g))) ==> r.Ok?
  {
    var d := D3D.GetTypeDesc(g, h).value;
    var name: string;
    if d.name.None? {
      name := guids.NewGuid();
      assert FreshSupply(guids.supply, old(guids.drawn), reg.defs, D3D.NamesIn(g)) ==> name !in reg.defs;
    } else {
      name := d.name.value;
      assert name in D3D.NamesIn(g);
    }
    var t := ShaderTypeDef(name, ToShaderTypeKind(d.varClass), ToShaderVarType(d.varType),
                           d.columns, d.rows, d.elements, d.offset, None);
    var added := reg.Add(name, t);
    if added.Err? {
      return Err(added.error);
    }
    if FreshSupply(guids.supply, old(guids.drawn), old(reg.defs), D3D.NamesIn(g)) {
      FreshAfterRegistering(guids.supply, old(guids.drawn), old(reg.defs), D3D.NamesIn(g), t, guids.drawn);
    }
    r := Ok(t);
  }

  /** The member loop of `BuildType`: resolves each member type object of `h` in
      order and collects the names they resolve to. */
  method ResolveMembers(reg: TypeRegistry, guids: GuidSource, g: map<D3D.TypeHandle, D3D.TypeNode>,
                        h: D3D.TypeHandle, ghost rank: map<D3D.TypeHandle, nat>, ghost bound: set<string>,
                        ghost pending: map<string, D3D.TypeHandle>)
    returns (r: Result<seq<string>>)
    requires D3D.RankedGraph(g, rank)
    requires Coherent(reg.defs) && Sourced(reg.defs, pending, g)
    requires D3D.GetTypeDesc(g, h).Read?
    requires D3D.NamesIn(g) - reg.defs.Keys <= bound
    requires D3D.GetTypeDesc(g, h).value.name.Some? ==> D3D.NamesIn(g) - reg.defs.Keys < bound
    modifies reg, guids
    decreases bound, D3D.RankOf(rank, h), 1
    ensures Coherent(reg.defs)
    ensures r.Ok? ==> Sourced(reg.defs, pending, g)
    ensures Grows(old(reg.defs), reg.defs, g, guids.supply, old(guids.drawn), guids.drawn)
    ensures r.Ok? ==>
      |r.value| == D3D.GetTypeDesc(g, h).value.members as int &&
      (forall i :: 0 <= i < |r.value| ==> r.value[i] in reg.defs) &&
      forall i :: 0 <= i < |r.value| && MemberNameOf(g, h, i).Some? ==> r.value[i] == MemberNameOf(g, h, i).value
    ensures old(FreshSupply(guids.supply, guids.drawn, reg.defs, D3D.NamesIn(g))) ==>
      FreshSupply(guids.supply, guids.drawn, reg.defs, D3D.NamesIn(g))
    ensures (AllNamed(g) || old(FreshSupply(guids.supply, guids.drawn, reg.defs, D3D.NamesIn(g))))
            && WellFormedGraph(g) && h in g
            ==> r.Ok?
  {
    var n := D3D.GetTypeDesc(g, h).value.members as nat;
    ghost var wasFresh := FreshSupply(guids.supply, guids.drawn, reg.defs, D3D.NamesIn(g));
    var names: seq<string> := [];
    var i := 0;
    while i < n
      invariant 0 <= i <= n && |names| == i
      invariant Coherent(reg.defs) && Sourced(reg.defs, pending, g)
      invariant Grows(old(reg.defs), reg.defs, g, guids.supply, old(guids.drawn), guids.drawn)
      invariant forall j :: 0 <= j < i ==> names[j] in reg.defs
      invariant forall j :: 0 <= j < i && MemberNameOf(g, h, j).Some? ==> names[j] == MemberNameOf(g, h, j).value
      invariant wasFresh ==> FreshSupply(guids.supply, guids.drawn, reg.defs, D3D.NamesIn(g))
    {
      assert D3D.NamesIn(g) - reg.defs.Keys <= D3D.NamesIn(g) - old(reg.defs).Keys;
      ghost var before, drawn0 := reg.defs, guids.drawn;
      var member := ResolveMember(reg, guids, g, h, i, rank, bound, pending);
      GrowsTransitive(old(reg.defs), before, reg.defs, g, guids.supply, old(guids.drawn), drawn0, guids.drawn);
      if member.Err? {
        return Err(member.error);
      }
      names := names + [member.value];
      i := i + 1;
    }
    r := Ok(names);
  }

  /** Resolves the `i`-th member of `h`: a null member pointer is a memory fault,
      otherwise the member type is built and its key returned. */
  method ResolveMember(reg: TypeRegistry, guids: GuidSource, g: map<D3D.TypeHandle, D3D.TypeNode>,
                       h: D3D.TypeHandle, i: nat, ghost rank: map<D3D.TypeHandle, nat>, ghost bound: set<string>,
                       ghost pending: map<string, D3D.TypeHandle>)
    returns (r: Result<string>)
    requires D3D.RankedGraph(g, rank)
    requires Coherent(reg.defs) && Sourced(reg.defs, pending, g)
    requires D3D.GetTypeDesc(g, h).Read? && i < D3D.GetTypeDesc(g, h).value.members as int
    requires D3D.NamesIn(g) - reg.defs.Keys <= bound
    requires D3D.GetTypeDesc(g, h).value.name.Some? ==> D3D.NamesIn(g) - reg.defs.Keys < bound
    modifies reg, guids
    decreases bound, D3D.RankOf(rank, h), 0
    ensures Coherent(reg.defs)
    ensures r.Ok? ==> Sourced(reg.defs, pending, g)
    ensures Grows(old(reg.defs), reg.defs, g, guids.supply, old(guids.drawn), guids.drawn)
    ensures r.Ok? ==> r.value in reg.defs
    ensures r.Ok? && MemberNameOf(g, h, i).Some? ==> r.value == MemberNameOf(g, h, i).value
    ensures old(FreshSupply(guids.supply, guids.drawn, reg.defs, D3D.NamesIn(g))) ==>
      FreshSupply(guids.supply, guids.drawn, reg.defs, D3D.NamesIn(g))
    ensures (AllNamed(g) || old(FreshSupply(guids.supply, guids.drawn, reg.defs, D3D.NamesIn(g))))
            && WellFormedGraph(g) && h in g
            ==> r.Ok?
  {
    var m := D3D.GetMemberTypeByIndex(g, h, i);
    if m.None? {
      return Err(NativeMemoryFault);
    }
    if D3D.GetTypeDesc(g, h).value.name.None? {
      assert D3D.RankOf(rank, m.value) < D3D.RankOf(rank, h);
    }
    var t :- BuildType(reg, guids, g, m.value, rank, pending);
    r := Ok(t.name);
  }

  /** One readable struct type object named `Node` whose one member is itself. */
  function SelfGraph(): map<D3D.TypeHandle, D3D.TypeNode> {
    map[0 := D3D.TypeNode(D3D.Read(D3D.ShaderTypeDesc(D3D.SvcStruct, D3D.SvtVoid, 1, 1, 0, 1, 0, Some("Node"))), [0])]
  }

  lemma SelfGraphShape()
    ensures D3D.NamesIn(SelfGraph()) == {"Node"} && MemberNameOf(SelfGraph(), 0, 0) == Some("Node")
    ensures AllNamed(SelfGraph()) && WellFormedGraph(SelfGraph()) && D3D.RankedGraph(SelfGraph(), map[])
    ensures D3D.GetTypeDesc(SelfGraph(), 0).Read? && D3D.GetTypeDesc(SelfGraph(), 0).value.members == 1
    ensures D3D.GetTypeDesc(SelfGraph(), 0).value.name == Some("Node")
  {
    var g := SelfGraph();
    assert "Node" in D3D.NamesIn(g);
  }

  /** A struct whose one member is the struct itself: the recursion meets the
      entry registered before its members were resolved, so the registry ends with
      a single entry whose member list names that entry. */
  method SelfReferentialStruct() returns (r: Result<ShaderTypeDef>, keys: set<string>)
    ensures r.Ok? && r.value.name == "Node" && r.value.members == Some(["Node"]) && keys == {"Node"}
  {
    var reg := new TypeRegistry();
    var guids := new GuidSource(_ => "guid");
    SelfGraphShape();
    assert !Memoized(reg.defs, SelfGraph(), 0);
    r := BuildType(reg, guids, SelfGraph(), 0, map[], map[]);
    assert r.value.members.value == [r.value.members.value[0]];
    keys := reg.defs.Keys;
    OnlyNativeNames(reg.defs, SelfGraph(), guids.supply, guids.drawn);
  }

  // ------------------------------------------------------------------- variables

  /** A region of a variable: reported only when its start or its size is non-zero. */
  function Region(start: u32, size: u32): (r: Option<ShaderVariableMetaOffsetSize>)
    ensures r.Some? <==> start != 0 || size != 0
    ensures r.Some? ==> r.value.offset == start && r.value.size == size
  {
    if start != 0 || size != 0 then Some(ShaderVariableMetaOffsetSize(start, size)) else None
  }

  /** The default value: a copy of `Size` bytes from the default-value pointer when
      it is non-null. `(int)Size` is negative from 2^31 on, and the span over it
      throws; a pointer to fewer readable bytes than `Size` faults. */
  function CopyDefaultValue(d: D3D.ShaderVariableDesc): (r: Result<Option<seq<bv8>>>)
    ensures r.Ok? <==> d.defaultValue.None? || (d.size <= IntMax && d.size <= |d.defaultValue.value|)
    ensures d.defaultValue.Some? && d.size > IntMax ==> r == Err(NegativeLength)
    ensures r.Ok? ==> (r.value.Some? <==> d.defaultValue.Some?)
    ensures r.Ok? && r.value.Some? ==>
      |r.value.value| == d.size as int && r.value.value == d.defaultValue.value[..d.size]
  {
    match d.defaultValue
    case None => Ok(None)
    case Some(mem) =>
      if d.size > IntMax then Err(NegativeLength)
      else if |mem| < d.size then Err(NativeMemoryFault)
      else Ok(Some(mem[..d.size]))
  }

  /** The variable object builds: its descriptor reads with a name, its default
      value copies, and its type object is in the graph. */
  predicate VarBuilds(v: D3D.VariableNode, g: map<D3D.TypeHandle, D3D.TypeNode>) {
    v.desc.Read? && v.desc.value.name.Some? && CopyDefaultValue(v.desc.value).Ok? && v.typeHandle in g
  }

  /** `m` is what `BuildVar` makes of the variable object `v`, with `types` the
      registry: the descriptor's name, regions, default value and flags, and a
      registered type key that is the native type name when the type object has
      one and otherwise holds the finished entry of that very type object. */
  predicate DescribesVar(m: ShaderVariableMeta, v: D3D.VariableNode, g: map<D3D.TypeHandle, D3D.TypeNode>,
                         types: map<string, ShaderTypeDef>) {
    v.desc.Read? &&
    var d := v.desc.value;
    d.name == Some(m.name) &&
    m.data == Region(d.startOffset, d.size) &&
    m.texture == Region(d.startTexture, d.textureSize) &&
    m.sampler == Region(d.startSampler, d.samplerSize) &&
    CopyDefaultValue(d) == Ok(m.defv) &&
    m.exts == Some([Dx12ShaderVariableMetaExt(d.uFlags)]) &&
    m.typeName.Some? && m.typeName.value in types &&
    (TypeNameOf(g, v.typeHandle).Some? ==> m.typeName == TypeNameOf(g, v.typeHandle)) &&
    (TypeNameOf(g, v.typeHandle).None? ==> EntryOf(types[m.typeName.value], g, v.typeHandle))
  }

  /** A description against a registry holds against any registry grown from it. */
  lemma DescribesVarGrows(m: ShaderVariableMeta, v: D3D.VariableNode, g: map<D3D.TypeHandle, D3D.TypeNode>,
                          before: map<string, ShaderTypeDef>, after: map<string, ShaderTypeDef>)
    requires DescribesVar(m, v, g, before) && Extends(before, after)
    ensures DescribesVar(m, v, g, after)
  {
  }

  /** `BuildVar`: a variable object to its record, resolving its type into the registry. */
  method BuildVar(reg: TypeRegistry, guids: GuidSource, g: map<D3D.TypeHandle, D3D.TypeNode>,
                  v: D3D.VariableNode, ghost rank: map<D3D.TypeHandle, nat>)
    returns (r: Result<ShaderVariableMeta>)
    requires D3D.RankedGraph(g, rank)
    requires Coherent(reg.defs) && Sourced(reg.defs, map[], g)
    modifies reg, guids
    ensures Coherent(reg.defs)
    ensures Grows(old(reg.defs), reg.defs, g, guids.supply, old(guids.drawn), guids.drawn)
    ensures v.desc.Failed? ==> r == Err(DescriptorReadFailed) && reg.defs == old(reg.defs)
    ensures v.desc.Read? && (v.desc.value.name.None? || CopyDefaultValue(v.desc.value).Err?) ==> r.Err?
    ensures r.Ok? ==> DescribesVar(r.value, v, g, reg.defs) && Sourced(reg.defs, map[], g)
    ensures old(FreshSupply(guids.supply, guids.drawn, reg.defs, D3D.NamesIn(g))) ==>
      FreshSupply(guids.supply, guids.drawn, reg.defs, D3D.NamesIn(g))
    ensures old(Buildable(g, guids.supply, guids.drawn, reg.defs)) && VarBuilds(v, g) ==> r.Ok?
  {
    if v.desc.Failed? {
      return Err(DescriptorReadFailed);
    }
    var d := v.desc.value;
    var data := Region(d.startOffset, d.size);
    var texture := Region(d.startTexture, d.textureSize);
    var sampler := Region(d.startSampler, d.samplerSize);
    var ty :- BuildType(reg, guids, g, v.typeHandle, rank, map[]);
    var defv :- CopyDefaultValue(d);
    if d.name.None? {
      return Err(NullKey);
    }
    r := Ok(ShaderVariableMeta(d.name.value, Some(ty.name), data, texture, sampler, defv,
                               Some([Dx12ShaderVariableMetaExt(d.uFlags)])));
  }

  // ------------------------------------------------------------ constant buffers

  /** The native name of the `i`-th variable of a constant buffer, when it reads. */
  function VarNameAt(cb: D3D.ConstantBufferNode, i: nat): Option<string> {
    var v := D3D.GetVariableByIndex(cb, i);
    if v.desc.Read? then v.desc.value.name else None
  }

  /** `vars` holds the first `n` variables of `cb`, one per name, each under its
      own name and described by its descriptor; no two of them share a name. */
  ghost predicate VarsOf(vars: map<string, ShaderVariableMeta>, cb: D3D.ConstantBufferNode, n: nat,
                  g: map<D3D.TypeHandle, D3D.TypeNode>, types: map<string, ShaderTypeDef>) {
    (forall i :: VarAt(vars, cb, n, g, types, i)) &&
    (forall i, j :: 0 <= i < j < n ==> VarNameAt(cb, i) != VarNameAt(cb, j)) &&
    (forall k :: VarKeyFrom(vars, cb, n, k))
  }

  /** The `i`-th variable of `cb`, when it is one of the first `n`, is in `vars`
      under its name and described by its descriptor. */
  ghost predicate VarAt(vars: map<string, ShaderVariableMeta>, cb: D3D.ConstantBufferNode, n: nat,
                        g: map<D3D.TypeHandle, D3D.TypeNode>, types: map<string, ShaderTypeDef>, i: int) {
    0 <= i < n ==>
      VarNameAt(cb, i).Some? && VarNameAt(cb, i).value in vars &&
      DescribesVar(vars[VarNameAt(cb, i).value], D3D.GetVariableByIndex(cb, i), g, types)
  }

  /** A key of `vars` is the name of one of the first `n` variables of `cb`. */
  predicate VarKeyFrom(vars: map<string, ShaderVariableMeta>, cb: D3D.ConstantBufferNode, n: nat, k: string) {
    k in vars ==> exists i :: 0 <= i < n && VarNameAt(cb, i) == Some(k)
  }

  /** The first `n` variables of `cb` all build, and no two share a name. */
  ghost predicate VarsBuild(cb: D3D.ConstantBufferNode, n: nat, g: map<D3D.TypeHandle, D3D.TypeNode>) {
    forall i :: VarBuildsAt(cb, n, g, i)
  }

  /** The `i`-th variable, when it is one of the first `n`, builds, and no earlier
      variable has its name. */
  predicate VarBuildsAt(cb: D3D.ConstantBufferNode, n: nat, g: map<D3D.TypeHandle, D3D.TypeNode>, i: int) {
    0 <= i < n ==>
      VarBuilds(D3D.GetVariableByIndex(cb, i), g) && forall j :: 0 <= j < i ==> VarNameAt(cb, j) != VarNameAt(cb, i)
  }

  /** The constant-buffer object builds: its descriptor reads with a name and all
      its variables build under distinct names. */
  ghost predicate CbBuilds(cb: D3D.ConstantBufferNode, g: map<D3D.TypeHandle, D3D.TypeNode>) {
    cb.desc.Read? && cb.desc.value.name.Some? && VarsBuild(cb, cb.desc.value.variables as nat, g)
  }

  /** `m` is what `BuildCb` makes of the constant-buffer object `cb`. */
  ghost predicate DescribesCb(m: ConstantBufferMeta, cb: D3D.ConstantBufferNode, g: map<D3D.TypeHandle, D3D.TypeNode>,
                        types: map<string, ShaderTypeDef>) {
    cb.desc.Read? &&
    var d := cb.desc.value;
    d.name == Some(m.name) && m.size == d.size &&
    m.exts == Some([Dx12ConstantBufferMetaExt(Some(d.typeText), d.uFlags)]) &&
    (m.vars.None? <==> d.variables == 0) &&
    (m.vars.Some? ==> VarsOf(m.vars.value, cb, d.variables as nat, g, types))
  }

  lemma VarsOfStep(vars: map<string, ShaderVariableMeta>, cb: D3D.ConstantBufferNode, i: nat, v: ShaderVariableMeta,
                    g: map<D3D.TypeHandle, D3D.TypeNode>, types: map<string, ShaderTypeDef>)
    requires VarsOf(vars, cb, i, g, types) && v.name !in vars
    requires DescribesVar(v, D3D.GetVariableByIndex(cb, i), g, types)
    ensures VarsOf(vars[v.name := v], cb, i + 1, g, types)
  {
    var vars' := vars[v.name := v];
    var n' := i + 1;
    assert VarNameAt(cb, i) == Some(v.name);
    forall j
      ensures VarAt(vars', cb, n', g, types, j)
    {
      if 0 <= j < i {
        assert VarAt(vars, cb, i, g, types, j);
        assert vars'[VarNameAt(cb, j).value] == vars[VarNameAt(cb, j).value];
      }
    }
    forall j, j' | 0 <= j < j' < i + 1
      ensures VarNameAt(cb, j) != VarNameAt(cb, j')
    {
      if j' == i {
        assert VarAt(vars, cb, i, g, types, j);
      }
    }
    forall k
      ensures VarKeyFrom(vars', cb, n', k)
    {
      if k == v.name {
        assert VarNameAt(cb, i) == Some(k);
      } else {
        assert VarKeyFrom(vars, cb, i, k);
      }
    }
  }

  /** A name no earlier variable has is not yet a key. */
  lemma VarNameFresh(vars: map<string, ShaderVariableMeta>, cb: D3D.ConstantBufferNode, i: nat,
                     g: map<D3D.TypeHandle, D3D.TypeNode>, types: map<string, ShaderTypeDef>)
    requires VarsOf(vars, cb, i, g, types) && VarNameAt(cb, i).Some?
    requires forall j :: 0 <= j < i ==> VarNameAt(cb, j) != VarNameAt(cb, i)
    ensures VarNameAt(cb, i).value !in vars
  {
    assert VarKeyFrom(vars, cb, i, VarNameAt(cb, i).value);
  }

  lemma VarsOfNonEmpty(vars: map<string, ShaderVariableMeta>, cb: D3D.ConstantBufferNode, n: nat,
                        g: map<D3D.TypeHandle, D3D.TypeNode>, types: map<string, ShaderTypeDef>)
    requires VarsOf(vars, cb, n, g, types)
    ensures |vars| > 0 <==> n > 0
  {
    if n > 0 {
      assert VarAt(vars, cb, n, g, types, 0);
    }
    if |vars| > 0 {
      var k :| k in vars;
      assert VarKeyFrom(vars, cb, n, k);
    }
  }

  /** The first `n` variables stay described as the registry grows. */
  lemma VarsOfGrows(vars: map<string, ShaderVariableMeta>, cb: D3D.ConstantBufferNode, n: nat,
                    g: map<D3D.TypeHandle, D3D.TypeNode>, before: map<string, ShaderTypeDef>,
                    after: map<string, ShaderTypeDef>)
    requires VarsOf(vars, cb, n, g, before) && Extends(before, after)
    ensures VarsOf(vars, cb, n, g, after)
  {
    forall i
      ensures VarAt(vars, cb, n, g, after, i)
    {
      if 0 <= i < n {
        assert VarAt(vars, cb, n, g, before, i);
        DescribesVarGrows(vars[VarNameAt(cb, i).value], D3D.GetVariableByIndex(cb, i), g, before, after);
      }
    }
  }

  /** One turn of the variable loop: builds the `i`-th variable and adds it to the
      `vars` built before it, unless its name is already a key. */
  method NextVar(reg: TypeRegistry, guids: GuidSource, g: map<D3D.TypeHandle, D3D.TypeNode>,
                 cb: D3D.ConstantBufferNode, i: nat, vars: map<string, ShaderVariableMeta>,
                 ghost rank: map<D3D.TypeHandle, nat>)
    returns (r: Result<ShaderVariableMeta>)
    requires D3D.RankedGraph(g, rank)
    requires Coherent(reg.defs) && Sourced(reg.defs, map[], g) && VarsOf(vars, cb, i, g, reg.defs)
    modifies reg, guids
    ensures Coherent(reg.defs)
    ensures Grows(old(reg.defs), reg.defs, g, guids.supply, old(guids.drawn), guids.drawn)
    ensures r.Ok? ==>
      r.value.name !in vars && VarsOf(vars[r.value.name := r.value], cb, i + 1, g, reg.defs) &&
      Sourced(reg.defs, map[], g)
    ensures old(FreshSupply(guids.supply, guids.drawn, reg.defs, D3D.NamesIn(g))) ==>
      FreshSupply(guids.supply, guids.drawn, reg.defs, D3D.NamesIn(g))
    ensures old(Buildable(g, guids.supply, guids.drawn, reg.defs)) && VarBuildsAt(cb, i + 1, g, i) ==> r.Ok?
  {
    var vv :- BuildVar(reg, guids, g, D3D.GetVariableByIndex(cb, i), rank);
    if VarBuildsAt(cb, i + 1, g, i) {
      VarNameFresh(vars, cb, i, g, old(reg.defs));
    }
    if vv.name in vars {
      return Err(DuplicateKey(vv.name));
    }
    VarsOfGrows(vars, cb, i, g, old(reg.defs), reg.defs);
    VarsOfStep(vars, cb, i, vv, g, reg.defs);
    r := Ok(vv);
  }

  /** The variable loop of `BuildCb`: builds each variable in order and adds it
      under its name; a name seen before throws. */
  method CollectVars(reg: TypeRegistry, guids: GuidSource, g: map<D3D.TypeHandle, D3D.TypeNode>,
                     cb: D3D.ConstantBufferNode, ghost rank: map<D3D.TypeHandle, nat>)
    returns (r: Result<map<string, ShaderVariableMeta>>)
    requires D3D.RankedGraph(g, rank)
    requires Coherent(reg.defs) && Sourced(reg.defs, map[], g)
    requires cb.desc.Read?
    modifies reg, guids
    ensures Coherent(reg.defs)
    ensures Grows(old(reg.defs), reg.defs, g, guids.supply, old(guids.drawn), guids.drawn)
    ensures r.Ok? ==> VarsOf(r.value, cb, cb.desc.value.variables as nat, g, reg.defs) && Sourced(reg.defs, map[], g)
    ensures r.Ok? && cb.desc.value.variables == 0 ==> reg.defs == old(reg.defs)
    ensures old(FreshSupply(guids.supply, guids.drawn, reg.defs, D3D.NamesIn(g))) ==>
      FreshSupply(guids.supply, guids.drawn, reg.defs, D3D.NamesIn(g))
    ensures old(Buildable(g, guids.supply, guids.drawn, reg.defs)) && VarsBuild(cb, cb.desc.value.variables as nat, g) ==>
      r.Ok?
  {
    var n := cb.desc.value.variables;
    var vars: map<string, ShaderVariableMeta> := map[];
    ghost var wasFresh := FreshSupply(guids.supply, guids.drawn, reg.defs, D3D.NamesIn(g));
    ghost var buildable := Buildable(g, guids.supply, guids.drawn, reg.defs) && VarsBuild(cb, n as nat, g);
    var i := 0;
    while i < n
      invariant 0 <= i <= n as nat
      invariant Coherent(reg.defs)
      invariant Grows(old(reg.defs), reg.defs, g, guids.supply, old(guids.drawn), guids.drawn)
      invariant VarsOf(vars, cb, i, g, reg.defs) && Sourced(reg.defs, map[], g)
      invariant i == 0 ==> reg.defs == old(reg.defs)
      invariant wasFresh ==> FreshSupply(guids.supply, guids.drawn, reg.defs, D3D.NamesIn(g))
      invariant buildable ==> Buildable(g, guids.supply, guids.drawn, reg.defs) && VarsBuild(cb, n as nat, g)
    {
      ghost var before, drawn0 := reg.defs, guids.drawn;
      if buildable {
        assert VarBuildsAt(cb, n as nat, g, i as nat);
      }
      var vv :- NextVar(reg, guids, g, cb, i as nat, vars, rank);
      GrowsTransitive(old(reg.defs), before, reg.defs, g, guids.supply, old(guids.drawn), drawn0, guids.drawn);
      vars := vars[vv.name := vv];
      i := i + 1;
    }
    r := Ok(vars);
  }

  /** `BuildCb`: a constant-buffer object to its record; variable names must be
      distinct within the buffer (`Dictionary.Add`). */
  method BuildCb(reg: TypeRegistry, guids: GuidSource, g: map<D3D.TypeHandle, D3D.TypeNode>,
                 cb: D3D.ConstantBufferNode, ghost rank: map<D3D.TypeHandle, nat>)
    returns (r: Result<ConstantBufferMeta>)
    requires D3D.RankedGraph(g, rank)
    requires Coherent(reg.defs) && Sourced(reg.defs, map[], g)
    modifies reg, guids
    ensures Coherent(reg.defs)
    ensures Grows(old(reg.defs), reg.defs, g, guids.supply, old(guids.drawn), guids.drawn)
    ensures cb.desc.Failed? ==> r == Err(DescriptorReadFailed) && reg.defs == old(reg.defs)
    ensures r.Ok? ==> DescribesCb(r.value, cb, g, reg.defs) && Sourced(reg.defs, map[], g)
    ensures r.Ok? && r.value.vars.None? ==> reg.defs == old(reg.defs)
    ensures old(FreshSupply(guids.supply, guids.drawn, reg.defs, D3D.NamesIn(g))) ==>
      FreshSupply(guids.supply, guids.drawn, reg.defs, D3D.NamesIn(g))
    ensures old(Buildable(g, guids.supply, guids.drawn, reg.defs)) && CbBuilds(cb, g) ==> r.Ok?
  {
    if cb.desc.Failed? {
      return Err(DescriptorReadFailed);
    }
    var d := cb.desc.value;
    var vars :- CollectVars(reg, guids, g, cb, rank);
    if d.name.None? {
      return Err(NullKey);
    }
    VarsOfNonEmpty(vars, cb, d.variables as nat, g, reg.defs);
    r := Ok(ConstantBufferMeta(d.name.value, Some([Dx12ConstantBufferMetaExt(Some(d.typeText), d.uFlags)]),
                               d.size, if |vars| > 0 then Some(vars) else None));
  }

  // ------------------------------------------------------------ keyed collections

  /** Indexer assignment in order (`dict[key] = item` for each item): every item is
      stored under its key, and a later item replaces an earlier one with the same key. */
  function Keyed<T>(items: seq<T>, key: T -> string): (m: map<string, T>)
    ensures forall i :: 0 <= i < |items| ==> key(items[i]) in m
    ensures forall k :: k in m ==> exists i :: 0 <= i < |items| && key(items[i]) == k && m[k] == items[i]
  {
    if |items| == 0 then map[]
    else
      var last := items[|items| - 1];
      Keyed(items[..|items| - 1], key)[key(last) := last]
  }

  /** Storing one more item updates the map at that item's key. */
  lemma KeyedAppend<T>(items: seq<T>, x: T, key: T -> string)
    ensures Keyed(items + [x], key) == Keyed(items, key)[key(x) := x]
  {
    assert (items + [x])[..|items|] == items;
  }

  /** The entry under a key is the last item carrying that key. */
  lemma {:induction false} KeyedLastWins<T>(items: seq<T>, key: T -> string, i: nat)
    requires i < |items|
    requires forall j :: i < j < |items| ==> key(items[j]) != key(items[i])
    ensures Keyed(items, key)[key(items[i])] == items[i]
  {
    if i < |items| - 1 {
      var prefix := items[..|items| - 1];
      assert forall j :: i < j < |prefix| ==> prefix[j] == items[j];
      KeyedLastWins(prefix, key, i);
    }
  }

  /** The map is empty exactly when there were no items (`Count > 0` iff any item). */
  lemma KeyedIsEmpty<T>(items: seq<T>, key: T -> string)
    ensures |Keyed(items, key)| == 0 <==> |items| == 0
  {
    var m := Keyed(items, key);
    if |items| > 0 {
      assert key(items[0]) in m.Keys;
    } else {
      assert m.Keys == {};
    }
  }

  function BindName(b: ShaderBindMeta): string { b.name }

  function CbName(c: ConstantBufferMeta): string { c.name }

  // ------------------------------------------------------------------- bindings

  /** The SRV shape of a binding: reported when the return type, the sample count
      or the dimension differs from its zero value. */
  function SrvShape(d: D3D.ShaderInputBindDesc): (r: Option<ShaderSrvBindMeta>)
    ensures r.Some? <==> !d.returnType.ReturnTypeNone? || d.numSamples != 0 || !d.dimension.SrvDimensionUnknown?
  {
    if !d.returnType.ReturnTypeNone? || d.numSamples != 0 || !d.dimension.SrvDimensionUnknown? then
      Some(ShaderSrvBindMeta(ToShaderTexStorage(d.returnType), ToShaderTexDimension(d.dimension), d.numSamples))
    else
      None
  }

  /** How a reader of the document fills in an omitted SRV shape. */
  function SrvOrDefault(s: Option<ShaderSrvBindMeta>): ShaderSrvBindMeta {
    if s.Some? then s.value else ShaderSrvBindMeta(ShaderSrvStorage.Unknown, ShaderSrvDimension.Unknown, 0)
  }

  /** Omitting the SRV shape loses nothing: read back with defaults, it is exactly
      the translated return type, dimension and sample count. */
  lemma SrvOmissionIsLossless(d: D3D.ShaderInputBindDesc)
    ensures SrvOrDefault(SrvShape(d)) ==
      ShaderSrvBindMeta(ToShaderTexStorage(d.returnType), ToShaderTexDimension(d.dimension), d.numSamples)
  {
  }

  /** `m` is what `BuildResBind` makes of the binding descriptor `d`. */
  predicate DescribesBinding(m: ShaderBindMeta, d: D3D.ShaderInputBindDesc) {
    d.name == Some(m.name) && m.flags == ToShaderResourceFlags(d.inputType) &&
    m.point == d.bindPoint && m.count == d.bindCount && m.space == d.space &&
    m.srv == SrvShape(d) &&
    m.exts == Some([Dx12ShaderBindMetaExt(d.uid, d.uFlags)])
  }

  /** `BuildResBind`: the `i`-th bound resource to its record. */
  function BuildResBind(refl: D3D.ShaderReflection, i: nat): (r: Result<ShaderBindMeta>)
    ensures D3D.GetResourceBindingDesc(refl, i).Failed? ==> r == Err(DescriptorReadFailed)
    ensures r.Ok? <==> D3D.GetResourceBindingDesc(refl, i).Read? && D3D.GetResourceBindingDesc(refl, i).value.name.Some?
    ensures r.Ok? ==> DescribesBinding(r.value, D3D.GetResourceBindingDesc(refl, i).value)
  {
    match D3D.GetResourceBindingDesc(refl, i)
    case Failed => Err(DescriptorReadFailed)
    case Read(d) =>
      if d.name.None? then Err(NullKey)
      else
        Ok(ShaderBindMeta(d.name.value, ToShaderResourceFlags(d.inputType), d.bindPoint, d.bindCount, d.space,
                          SrvShape(d), Some([Dx12ShaderBindMetaExt(d.uid, d.uFlags)])))
  }

  /** The first `n` bound resources built in order; the first failure stops the run. */
  function ReadBindings(refl: D3D.ShaderReflection, n: nat): (r: Result<seq<ShaderBindMeta>>)
    ensures r.Ok? <==> forall i :: 0 <= i < n ==> BuildResBind(refl, i).Ok?
    ensures r.Ok? ==> |r.value| == n && forall i :: 0 <= i < n ==> BuildResBind(refl, i) == Ok(r.value[i])
    ensures r.Err? ==> exists i :: 0 <= i < n && BuildResBind(refl, i) == Err(r.error) &&
                                   forall j :: 0 <= j < i ==> BuildResBind(refl, j).Ok?
  {
    if n == 0 then Ok([])
    else
      var prefix :- ReadBindings(refl, n - 1);
      var b :- BuildResBind(refl, n - 1);
      Ok(prefix + [b])
  }

  /** Once a binding fails, reading further ones changes nothing. */
  lemma {:induction false} ReadBindingsKeepsFirstError(refl: D3D.ShaderReflection, i: nat, n: nat)
    requires i <= n && ReadBindings(refl, i).Err?
    ensures ReadBindings(refl, n) == ReadBindings(refl, i)
    decreases n
  {
    if i < n {
      ReadBindingsKeepsFirstError(refl, i, n - 1);
    }
  }

  /** The binding loop of the extraction: `bindings[b.Name] = b` over the bound
      resources in order. */
  method CollectBindings(refl: D3D.ShaderReflection, n: u32) returns (r: Result<map<string, ShaderBindMeta>>)
    ensures r.Ok? <==> ReadBindings(refl, n as nat).Ok?
    ensures r.Ok? ==> r.value == Keyed(ReadBindings(refl, n as nat).value, BindName)
    ensures r.Err? ==> r.error == ReadBindings(refl, n as nat).error
  {
    var bindings: map<string, ShaderBindMeta> := map[];
    var i: nat := 0;
    while i < n as nat
      invariant i <= n as nat
      invariant ReadBindings(refl, i).Ok? && bindings == Keyed(ReadBindings(refl, i).value, BindName)
    {
      var b := BuildResBind(refl, i);
      if b.Err? {
        ReadBindingsKeepsFirstError(refl, i + 1, n as nat);
        return Err(b.error);
      }
      KeyedAppend(ReadBindings(refl, i).value, b.value, BindName);
      bindings := bindings[b.value.name := b.value];
      i := i + 1;
    }
    r := Ok(bindings);
  }

  // ----------------------------------------------------------------- signatures

  /** `BuildParam`: a signature element to its record. */
  function BuildParam(d: D3D.SignatureParameterDesc): (p: ShaderParam)
    ensures p.sv == ShaderSemantic.Undefined <==> !IsListedName(d.systemValueType)
    ensures IsListedName(d.systemValueType) ==> NativeNameOf(p.sv) == d.systemValueType
    ensures p.mask == [d.mask, d.readWriteMask]
    ensures p.slot == d.semanticName && p.index == d.semanticIndex && p.register == d.register && p.stream == d.stream
    ensures p.storage == ToShaderVectorComponentType(d.componentType) && p.precision == ToShaderMinPrecision(d.minPrecision)
  {
    SemanticTranslationRoundTrip(d.systemValueType);
    ShaderParam(ToShaderSemantic(d.systemValueType), d.semanticName, d.semanticIndex, d.register,
                [d.mask, d.readWriteMask], ToShaderVectorComponentType(d.componentType), d.stream,
                ToShaderMinPrecision(d.minPrecision))
  }

  /** `BuildInputParam`, `BuildOutputParam` and `BuildPatchParam`: read the `i`-th
      element of one signature and build its record. */
  function BuildParamAt(refl: D3D.ShaderReflection, kind: D3D.SignatureKind, i: nat): (r: Result<ShaderParam>)
    ensures r.Ok? <==> D3D.GetParameterDesc(refl, kind, i).Read?
    ensures r.Ok? ==> r.value == BuildParam(D3D.GetParameterDesc(refl, kind, i).value)
    ensures r.Err? ==> r.error == DescriptorReadFailed
  {
    match D3D.GetParameterDesc(refl, kind, i)
    case Failed => Err(DescriptorReadFailed)
    case Read(d) => Ok(BuildParam(d))
  }

  /** A signature loop: stores the record of element `i` of `kind` at `dst[i]` for
      every `i < n`, reading before storing; a store past the end throws. */
  method FillParams(refl: D3D.ShaderReflection, kind: D3D.SignatureKind, dst: array<Option<ShaderParam>>, n: u32)
    returns (r: Result<()>)
    modifies dst
    ensures r.Ok? <==> n as int <= dst.Length && forall i :: 0 <= i < n as int ==> D3D.GetParameterDesc(refl, kind, i).Read?
    ensures r.Err? ==> r.error == DescriptorReadFailed || r.error == IndexOutOfRange
    ensures r.Ok? ==> forall i :: 0 <= i < dst.Length ==>
      dst[i] == if i < n as int then Some(BuildParam(D3D.GetParameterDesc(refl, kind, i).value)) else old(dst[i])
  {
    var i: nat := 0;
    while i < n as nat
      invariant i <= n as nat && i <= dst.Length
      invariant forall j :: 0 <= j < i ==> D3D.GetParameterDesc(refl, kind, j).Read?
      invariant forall j :: 0 <= j < dst.Length ==>
        dst[j] == if j < i then Some(BuildParam(D3D.GetParameterDesc(refl, kind, j).value)) else old(dst[j])
    {
      var p :- BuildParamAt(refl, kind, i);
      if i >= dst.Length {
        return Err(IndexOutOfRange);
      }
      dst[i] := Some(p);
      i := i + 1;
    }
    r := Ok(());
  }

  // ----------------------------------------------------------- constant buffers

  /** `m` holds the first `n` constant buffers built in order, keyed by name,
      a later buffer replacing an earlier one of the same name. */
  ghost predicate CbsOf(m: map<string, ConstantBufferMeta>, refl: D3D.ShaderReflection, n: nat,
                        types: map<string, ShaderTypeDef>) {
    exists built: seq<ConstantBufferMeta> :: |built| == n && m == Keyed(built, CbName) && DescribesCbs(built, refl, types)
  }

  /** `built[i]` is what `BuildCb` makes of the `i`-th constant buffer, for every `i`. */
  ghost predicate DescribesCbs(built: seq<ConstantBufferMeta>, refl: D3D.ShaderReflection, types: map<string, ShaderTypeDef>) {
    forall i :: CbAt(built, refl, types, i)
  }

  /** The first `n` constant buffers all build. */
  ghost predicate CbsBuild(refl: D3D.ShaderReflection, n: nat) {
    forall i :: 0 <= i < n ==> CbBuilds(D3D.GetConstantBufferByIndex(refl, i), refl.types)
  }

  /** `built[i]`, when there is one, is what `BuildCb` makes of the `i`-th constant buffer. */
  ghost predicate CbAt(built: seq<ConstantBufferMeta>, refl: D3D.ShaderReflection, types: map<string, ShaderTypeDef>, i: int) {
    0 <= i < |built| ==> DescribesCb(built[i], D3D.GetConstantBufferByIndex(refl, i), refl.types, types)
  }

  lemma DescribesCbsStep(built: seq<ConstantBufferMeta>, refl: D3D.ShaderReflection, c: ConstantBufferMeta,
                         types: map<string, ShaderTypeDef>)
    requires DescribesCbs(built, refl, types) && DescribesCb(c, D3D.GetConstantBufferByIndex(refl, |built|), refl.types, types)
    ensures DescribesCbs(built + [c], refl, types)
  {
    var built' := built + [c];
    forall i
      ensures CbAt(built', refl, types, i)
    {
      if 0 <= i < |built| {
        assert CbAt(built, refl, types, i);
        assert built'[i] == built[i];
      }
    }
  }

  /** The buffers built so far stay described as the registry grows. */
  lemma DescribesCbsGrows(built: seq<ConstantBufferMeta>, refl: D3D.ShaderReflection,
                          before: map<string, ShaderTypeDef>, after: map<string, ShaderTypeDef>)
    requires DescribesCbs(built, refl, before) && Extends(before, after)
    ensures DescribesCbs(built, refl, after)
  {
    forall i
      ensures CbAt(built, refl, after, i)
    {
      if 0 <= i < |built| {
        var cb := D3D.GetConstantBufferByIndex(refl, i);
        assert CbAt(built, refl, before, i);
        assert DescribesCb(built[i], cb, refl.types, before);
        if built[i].vars.Some? {
          VarsOfGrows(built[i].vars.value, cb, cb.desc.value.variables as nat, refl.types, before, after);
        }
      }
    }
  }

  /** One turn of the constant-buffer loop: the buffers so far stay described as
      the registry grows, and the new one is stored under its name. */
  lemma CbsStep(built: seq<ConstantBufferMeta>, refl: D3D.ShaderReflection, c: ConstantBufferMeta,
                before: map<string, ShaderTypeDef>, after: map<string, ShaderTypeDef>)
    requires DescribesCbs(built, refl, before) && Extends(before, after)
    requires DescribesCb(c, D3D.GetConstantBufferByIndex(refl, |built|), refl.types, after)
    ensures DescribesCbs(built + [c], refl, after)
    ensures Keyed(built + [c], CbName) == Keyed(built, CbName)[c.name := c]
  {
    DescribesCbsGrows(built, refl, before, after);
    DescribesCbsStep(built, refl, c, after);
    KeyedAppend(built, c, CbName);
  }

  /** The name of the `i`-th constant buffer, when its descriptor reads. */
  function CbNameAt(refl: D3D.ShaderReflection, i: nat): Option<string> {
    var cb := D3D.GetConstantBufferByIndex(refl, i);
    if cb.desc.Read? then cb.desc.value.name else None
  }

  /** Every buffer described has a readable descriptor with a name. */
  lemma DescribedCbsNamed(built: seq<ConstantBufferMeta>, refl: D3D.ShaderReflection, types: map<string, ShaderTypeDef>)
    requires DescribesCbs(built, refl, types)
    ensures forall i :: 0 <= i < |built| ==> CbNameAt(refl, i) == Some(built[i].name)
  {
    forall i | 0 <= i < |built|
      ensures CbNameAt(refl, i) == Some(built[i].name)
    {
      assert CbAt(built, refl, types, i);
    }
  }

  /** Every buffer's name is a key, and a buffer no later buffer shares its name
      with is the entry under that name. */
  lemma CbsLastWins(built: seq<ConstantBufferMeta>, refl: D3D.ShaderReflection, i: nat, types: map<string, ShaderTypeDef>)
    requires DescribesCbs(built, refl, types) && i < |built|
    ensures CbNameAt(refl, i) == Some(built[i].name) && built[i].name in Keyed(built, CbName)
    ensures (forall j :: i < j < |built| ==> CbNameAt(refl, j) != CbNameAt(refl, i)) ==>
      Keyed(built, CbName)[built[i].name] == built[i]
  {
    assert CbAt(built, refl, types, i);
    if forall j :: i < j < |built| ==> CbNameAt(refl, j) != CbNameAt(refl, i) {
      forall j | i < j < |built|
        ensures CbName(built[j]) != CbName(built[i])
      {
        assert CbAt(built, refl, types, j);
        assert CbNameAt(refl, j) == Some(built[j].name);
      }
      KeyedLastWins(built, CbName, i);
    }
  }

  /** What a reader can rely on in `CbsOf`: the map is not empty, every buffer's
      name is a key, and the last buffer of each name is described by the entry
      under that name. */
  lemma CbsOfEntries(m: map<string, ConstantBufferMeta>, refl: D3D.ShaderReflection, n: nat, i: nat,
                     types: map<string, ShaderTypeDef>)
    requires CbsOf(m, refl, n, types) && i < n
    ensures |m| > 0 && CbNameAt(refl, i).Some? && CbNameAt(refl, i).value in m
    ensures (forall j :: i < j < n ==> CbNameAt(refl, j) != CbNameAt(refl, i)) ==>
      DescribesCb(m[CbNameAt(refl, i).value], D3D.GetConstantBufferByIndex(refl, i), refl.types, types)
  {
    var built: seq<ConstantBufferMeta> :| |built| == n && m == Keyed(built, CbName) && DescribesCbs(built, refl, types);
    KeyedIsEmpty(built, CbName);
    CbsLastWins(built, refl, i, types);
    assert CbAt(built, refl, types, i);
  }

  /** One turn of the constant-buffer loop: builds the `i`-th buffer, the `built`
      ones before it staying described as the registry grows. */
  method NextCb(reg: TypeRegistry, guids: GuidSource, refl: D3D.ShaderReflection, i: nat,
                ghost built: seq<ConstantBufferMeta>, ghost rank: map<D3D.TypeHandle, nat>)
    returns (r: Result<ConstantBufferMeta>)
    requires D3D.RankedGraph(refl.types, rank) && |built| == i
    requires Coherent(reg.defs) && Sourced(reg.defs, map[], refl.types) && DescribesCbs(built, refl, reg.defs)
    modifies reg, guids
    ensures Coherent(reg.defs)
    ensures Grows(old(reg.defs), reg.defs, refl.types, guids.supply, old(guids.drawn), guids.drawn)
    ensures r.Ok? ==> DescribesCbs(built + [r.value], refl, reg.defs) && Sourced(reg.defs, map[], refl.types)
    ensures r.Ok? ==> Keyed(built + [r.value], CbName) == Keyed(built, CbName)[r.value.name := r.value]
    ensures old(FreshSupply(guids.supply, guids.drawn, reg.defs, D3D.NamesIn(refl.types))) ==>
      FreshSupply(guids.supply, guids.drawn, reg.defs, D3D.NamesIn(refl.types))
    ensures (old(Buildable(refl.types, guids.supply, guids.drawn, reg.defs)) &&
             CbBuilds(D3D.GetConstantBufferByIndex(refl, i), refl.types)) ==> r.Ok?
  {
    ghost var before := reg.defs;
    r := BuildCb(reg, guids, refl.types, D3D.GetConstantBufferByIndex(refl, i), rank);
    if r.Ok? {
      CbsStep(built, refl, r.value, before, reg.defs);
    }
  }

  /** The constant-buffer loop of the extraction: `cbs[cbcb.Name] = cbcb` over the
      buffers in order, all sharing the type registry. */
  method CollectConstantBuffers(reg: TypeRegistry, guids: GuidSource, refl: D3D.ShaderReflection, n: u32,
                                ghost rank: map<D3D.TypeHandle, nat>)
    returns (r: Result<map<string, ConstantBufferMeta>>, ghost built: seq<ConstantBufferMeta>)
    requires D3D.RankedGraph(refl.types, rank)
    requires Coherent(reg.defs) && Sourced(reg.defs, map[], refl.types)
    modifies reg, guids
    ensures Coherent(reg.defs)
    ensures Grows(old(reg.defs), reg.defs, refl.types, guids.supply, old(guids.drawn), guids.drawn)
    ensures r.Ok? ==>
      |built| == n as nat && r.value == Keyed(built, CbName) && DescribesCbs(built, refl, reg.defs)
    ensures r.Ok? ==> Sourced(reg.defs, map[], refl.types)
    ensures n == 0 ==> |reg.defs| == |old(reg.defs)|
    ensures (exists i :: 0 <= i < n as nat && CbNameAt(refl, i).None?) ==> r.Err?
    ensures old(Buildable(refl.types, guids.supply, guids.drawn, reg.defs)) && CbsBuild(refl, n as nat) ==> r.Ok?
  {
    var cbs: map<string, ConstantBufferMeta> := map[];
    built := [];
    var i: nat := 0;
    while i < n as nat
      invariant i <= n as nat && |built| == i
      invariant Coherent(reg.defs)
      invariant Grows(old(reg.defs), reg.defs, refl.types, guids.supply, old(guids.drawn), guids.drawn)
      invariant cbs == Keyed(built, CbName)
      invariant DescribesCbs(built, refl, reg.defs) && Sourced(reg.defs, map[], refl.types)
      invariant i == 0 ==> |reg.defs| == |old(reg.defs)|
      invariant old(FreshSupply(guids.supply, guids.drawn, reg.defs, D3D.NamesIn(refl.types))) ==>
        FreshSupply(guids.supply, guids.drawn, reg.defs, D3D.NamesIn(refl.types))
    {
      ghost var before, drawn0 := reg.defs, guids.drawn;
      var cb := NextCb(reg, guids, refl, i, built, rank);
      GrowsTransitive(old(reg.defs), before, reg.defs, refl.types, guids.supply, old(guids.drawn), drawn0, guids.drawn);
      if cb.Err? {
        return Err(cb.error), built;
      }
      built := built + [cb.value];
      cbs := cbs[cb.value.name := cb.value];
      i := i + 1;
    }
    DescribedCbsNamed(built, refl, reg.defs);
    r := Ok(cbs);
  }

  // ------------------------------------------------------------------ assembly

  /** Every element the three signature loops read is readable, and the
      patch-constant loop stays within the output array. */
  predicate SignaturesReadable(refl: D3D.ShaderReflection, desc: D3D.ShaderDesc) {
    (forall i :: 0 <= i < desc.inputParameters as int ==> D3D.GetParameterDesc(refl, D3D.InputSignature, i).Read?) &&
    (forall i :: 0 <= i < desc.outputParameters as int ==> D3D.GetParameterDesc(refl, D3D.OutputSignature, i).Read?) &&
    desc.patchConstantParameters <= desc.outputParameters &&
    (forall i :: 0 <= i < desc.patchConstantParameters as int ==> D3D.GetParameterDesc(refl, D3D.PatchConstantSignature, i).Read?)
  }

  /** The contents of the three arrays once the signature loops are done: inputs
      in place, outputs overwritten by the patch-constant elements below the
      patch-constant count, and the patch-constant array untouched (all null). */
  predicate SignatureArrays(ins: seq<Option<ShaderParam>>, outs: seq<Option<ShaderParam>>, patches: seq<Option<ShaderParam>>,
                            refl: D3D.ShaderReflection, desc: D3D.ShaderDesc)
    requires SignaturesReadable(refl, desc)
  {
    |ins| == desc.inputParameters as int && |outs| == desc.outputParameters as int &&
    |patches| == desc.patchConstantParameters as int &&
    (forall i :: 0 <= i < |ins| ==> ins[i] == Some(BuildParam(D3D.GetParameterDesc(refl, D3D.InputSignature, i).value))) &&
    (forall i :: 0 <= i < |outs| ==>
      outs[i] == Some(BuildParam(if i < |patches| then D3D.GetParameterDesc(refl, D3D.PatchConstantSignature, i).value
                                 else D3D.GetParameterDesc(refl, D3D.OutputSignature, i).value))) &&
    forall i :: 0 <= i < |patches| ==> patches[i].None?
  }

  /** The three signature arrays as the extraction fills them. Input and output
      elements go to their own arrays; the patch-constant loop stores into the
      OUTPUT array, overwriting its first elements, and leaves its own array null
      throughout (a store past the end of the output array throws). */
  method BuildSignatures(refl: D3D.ShaderReflection, desc: D3D.ShaderDesc)
    returns (r: Result<(seq<Option<ShaderParam>>, seq<Option<ShaderParam>>, seq<Option<ShaderParam>>)>)
    ensures r.Ok? <==> SignaturesReadable(refl, desc)
    ensures r.Ok? ==> SignatureArrays(r.value.0, r.value.1, r.value.2, refl, desc)
  {
    var ip := new Option<ShaderParam>[desc.inputParameters](_ => None);
    var okIn := FillParams(refl, D3D.InputSignature, ip, desc.inputParameters);
    if okIn.Err? {
      return Err(okIn.error);
    }
    var op := new Option<ShaderParam>[desc.outputParameters](_ => None);
    var okOut := FillParams(refl, D3D.OutputSignature, op, desc.outputParameters);
    if okOut.Err? {
      return Err(okOut.error);
    }
    var pp := new Option<ShaderParam>[desc.patchConstantParameters](_ => None);
    var okPatch := FillParams(refl, D3D.PatchConstantSignature, op, desc.patchConstantParameters);
    if okPatch.Err? {
      return Err(okPatch.error);
    }
    r := Ok((ip[..], op[..], pp[..]));
  }

  /** The map stored in the `Types` property: the registry, or nothing when empty. */
  function TypesOf(m: ShaderMeta): map<string, ShaderTypeDef> {
    if m.types.Some? then m.types.value else map[]
  }

  /** Stage, extension record and thread-group size of the document. */
  predicate HeaderOf(m: ShaderMeta, refl: D3D.ShaderReflection) {
    refl.minFeatureLevel.Read? && refl.desc.Read? &&
    var desc, tg := refl.desc.value, refl.threadGroupSize;
    m.stage == VersionToStage(desc.version) &&
    m.exts == Some([Dx12ShaderMetaExt(VersionToString(desc.version), desc.creator, desc.flags,
                                      Some(refl.minFeatureLevel.value), refl.requiresFlags,
                                      refl.isSampleFrequencyShader)]) &&
    (m.threadGroupSize.Some? <==> tg.total != 0) &&
    (m.threadGroupSize.Some? ==> m.threadGroupSize.value == [tg.x, tg.y, tg.z])
  }

  /** The `Res` property: null without bound resources, otherwise every bound
      resource keyed by name, a later one replacing an earlier one. */
  predicate ResOf(m: ShaderMeta, refl: D3D.ShaderReflection) {
    refl.desc.Read? &&
    var n := refl.desc.value.boundResources as nat;
    ReadBindings(refl, n).Ok? && (m.res.Some? <==> n > 0) &&
    (m.res.Some? ==> m.res.value == Keyed(ReadBindings(refl, n).value, BindName))
  }

  /** The `Cbs` property: null without constant buffers, otherwise the buffers keyed by name. */
  ghost predicate CbsFieldOf(m: ShaderMeta, refl: D3D.ShaderReflection) {
    refl.desc.Read? &&
    var n := refl.desc.value.constantBuffers as nat;
    (m.cbs.Some? <==> n > 0) && (m.cbs.Some? ==> CbsOf(m.cbs.value, refl, n, TypesOf(m)))
  }

  /** The `Types` property: null when empty, and so null when there are no
      constant buffers; coherent; every entry the finished entry of some type
      object; made of native names only when every type object has one. */
  ghost predicate TypesFieldOf(m: ShaderMeta, refl: D3D.ShaderReflection) {
    (m.types.None? || |m.types.value| > 0) &&
    (m.cbs.None? ==> m.types.None?) &&
    Coherent(TypesOf(m)) && Sourced(TypesOf(m), map[], refl.types) &&
    (AllNamed(refl.types) ==> TypesOf(m).Keys <= D3D.NamesIn(refl.types))
  }

  /** What a reader can rely on in `TypesFieldOf`: each entry of `Types` is the
      flattened descriptor of a readable type object of the graph, stored under
      that object's native name when it has one. */
  lemma TypesEntryFlattens(m: ShaderMeta, refl: D3D.ShaderReflection, k: string)
    requires TypesFieldOf(m, refl) && k in TypesOf(m)
    ensures exists h :: (h in refl.types && refl.types[h].desc.Read? &&
                         Flattens(TypesOf(m)[k], refl.types[h].desc.value) &&
                         (refl.types[h].desc.value.name.Some? ==> k == refl.types[h].desc.value.name.value))
  {
    assert SourcedAt(TypesOf(m), map[], refl.types, k);
    var h :| EntryOf(TypesOf(m)[k], refl.types, h);
    assert h in refl.types;
  }

  /** The three signature properties, each null when its count is zero. Outputs
      below the patch-constant count hold patch-constant elements; `Patchs` holds
      only nulls. */
  predicate SignaturesOf(m: ShaderMeta, refl: D3D.ShaderReflection) {
    refl.desc.Read? &&
    var desc := refl.desc.value;
    var nIn, nOut, nPatch := desc.inputParameters as int, desc.outputParameters as int, desc.patchConstantParameters as int;
    nPatch <= nOut &&
    (m.inputs.Some? <==> nIn > 0) && (m.outputs.Some? <==> nOut > 0) && (m.patchs.Some? <==> nPatch > 0) &&
    (m.inputs.Some? ==>
      |m.inputs.value| == nIn &&
      forall i :: 0 <= i < nIn ==>
        D3D.GetParameterDesc(refl, D3D.InputSignature, i).Read? &&
        m.inputs.value[i] == Some(BuildParam(D3D.GetParameterDesc(refl, D3D.InputSignature, i).value))) &&
    (m.outputs.Some? ==>
      |m.outputs.value| == nOut &&
      forall i :: 0 <= i < nOut ==>
        D3D.GetParameterDesc(refl, D3D.OutputSignature, i).Read? &&
        (i < nPatch ==> D3D.GetParameterDesc(refl, D3D.PatchConstantSignature, i).Read?) &&
        m.outputs.value[i] == Some(BuildParam(if i < nPatch then D3D.GetParameterDesc(refl, D3D.PatchConstantSignature, i).value
                                              else D3D.GetParameterDesc(refl, D3D.OutputSignature, i).value))) &&
    (m.patchs.Some? ==>
      |m.patchs.value| == nPatch && forall i :: 0 <= i < nPatch ==> m.patchs.value[i].None?)
  }

  lemma ResOfCollected(m: ShaderMeta, refl: D3D.ShaderReflection, bindings: map<string, ShaderBindMeta>)
    requires refl.desc.Read? && ReadBindings(refl, refl.desc.value.boundResources as nat).Ok?
    requires bindings == Keyed(ReadBindings(refl, refl.desc.value.boundResources as nat).value, BindName)
    requires m.res == if |bindings| > 0 then Some(bindings) else None
    ensures ResOf(m, refl)
  {
    KeyedIsEmpty(ReadBindings(refl, refl.desc.value.boundResources as nat).value, BindName);
  }

  lemma CbsFieldOfCollected(m: ShaderMeta, refl: D3D.ShaderReflection, cbs: map<string, ConstantBufferMeta>)
    requires refl.desc.Read? && CbsOf(cbs, refl, refl.desc.value.constantBuffers as nat, TypesOf(m))
    requires m.cbs == if |cbs| > 0 then Some(cbs) else None
    ensures CbsFieldOf(m, refl)
  {
    var built: seq<ConstantBufferMeta> :|
      |built| == refl.desc.value.constantBuffers as nat && cbs == Keyed(built, CbName) && DescribesCbs(built, refl, TypesOf(m));
    KeyedIsEmpty(built, CbName);
  }

  lemma TypesFieldOfCollected(m: ShaderMeta, refl: D3D.ShaderReflection, cbs: map<string, ConstantBufferMeta>,
                              defs: map<string, ShaderTypeDef>)
    requires Coherent(defs) && Sourced(defs, map[], refl.types) && (|cbs| == 0 ==> |defs| == 0)
    requires AllNamed(refl.types) ==> defs.Keys <= D3D.NamesIn(refl.types)
    requires m.cbs == (if |cbs| > 0 then Some(cbs) else None) && m.types == (if |defs| > 0 then Some(defs) else None)
    ensures TypesFieldOf(m, refl)
  {
    if |defs| == 0 {
      assert defs == map[];
    }
  }

  lemma SignaturesOfCollected(m: ShaderMeta, refl: D3D.ShaderReflection,
                              ins: seq<Option<ShaderParam>>, outs: seq<Option<ShaderParam>>, patches: seq<Option<ShaderParam>>)
    requires refl.desc.Read? && SignaturesReadable(refl, refl.desc.value)
    requires SignatureArrays(ins, outs, patches, refl, refl.desc.value)
    requires m.inputs == (if |ins| > 0 then Some(ins) else None)
    requires m.outputs == (if |outs| > 0 then Some(outs) else None)
    requires m.patchs == (if |patches| > 0 then Some(patches) else None)
    ensures SignaturesOf(m, refl)
  {
  }

  /** What the loops of the extraction produce, before the document is assembled:
      the binding map, the constant-buffer map, the type registry and the three
      signature arrays. */
  datatype Collected = Collected(
    bindings: map<string, ShaderBindMeta>,
    cbs: map<string, ConstantBufferMeta>,
    types: map<string, ShaderTypeDef>,
    inputs: seq<Option<ShaderParam>>,
    outputs: seq<Option<ShaderParam>>,
    patchs: seq<Option<ShaderParam>>)

  /** `c` is what the loops make of `refl`. */
  ghost predicate CollectedFrom(c: Collected, refl: D3D.ShaderReflection) {
    refl.desc.Read? &&
    var desc := refl.desc.value;
    ReadBindings(refl, desc.boundResources as nat).Ok? &&
    c.bindings == Keyed(ReadBindings(refl, desc.boundResources as nat).value, BindName) &&
    CbsOf(c.cbs, refl, desc.constantBuffers as nat, c.types) &&
    Coherent(c.types) && Sourced(c.types, map[], refl.types) && (|c.cbs| == 0 ==> |c.types| == 0) &&
    (AllNamed(refl.types) ==> c.types.Keys <= D3D.NamesIn(refl.types)) &&
    SignaturesReadable(refl, desc) && SignatureArrays(c.inputs, c.outputs, c.patchs, refl, desc)
  }

  /** Every read of the extraction succeeds and no key collides: the descriptor
      reads, every binding builds, every constant buffer builds, every signature
      element reads and the patch-constant count fits, the type graph is well
      formed, and either every type object has a name or `supply` hands out fresh
      GUIDs. */
  ghost predicate Extractable(refl: D3D.ShaderReflection, supply: nat -> string) {
    refl.desc.Read? &&
    var desc := refl.desc.value;
    ReadBindings(refl, desc.boundResources as nat).Ok? && CbsBuild(refl, desc.constantBuffers as nat) &&
    SignaturesReadable(refl, desc) && Buildable(refl.types, supply, 0, map[])
  }

  /** The loops of the extraction, in order: bound resources, constant buffers
      (over a fresh type registry), input, output and patch-constant signatures. */
  method Collect(refl: D3D.ShaderReflection, supply: nat -> string, ghost rank: map<D3D.TypeHandle, nat>)
    returns (r: Result<Collected>)
    requires refl.desc.Read? && D3D.RankedGraph(refl.types, rank)
    ensures ReadBindings(refl, refl.desc.value.boundResources as nat).Err? ==> r.Err?
    ensures refl.desc.value.patchConstantParameters > refl.desc.value.outputParameters ==> r.Err?
    ensures (exists i :: 0 <= i < refl.desc.value.constantBuffers as nat && CbNameAt(refl, i).None?) ==> r.Err?
    ensures !SignaturesReadable(refl, refl.desc.value) ==> r.Err?
    ensures r.Ok? ==> CollectedFrom(r.value, refl) && KeysNamedOrDrawn(r.value.types, refl.types, supply)
    ensures Extractable(refl, supply) ==> r.Ok?
  {
    var desc := refl.desc.value;
    var reg := new TypeRegistry();
    var guids := new GuidSource(supply);
    var bindings := CollectBindings(refl, desc.boundResources);
    if bindings.Err? {
      return Err(bindings.error);
    }
    assert Sourced(reg.defs, map[], refl.types);
    var cbs, built := CollectConstantBuffers(reg, guids, refl, desc.constantBuffers, rank);
    if cbs.Err? {
      return Err(cbs.error);
    }
    KeyedIsEmpty(built, CbName);
    var sigs :- BuildSignatures(refl, desc);
    if AllNamed(refl.types) {
      OnlyNativeNames(reg.defs, refl.types, guids.supply, guids.drawn);
    }
    GrownKeysNamedOrDrawn(reg.defs, refl.types, guids.supply, guids.drawn);
    r := Ok(Collected(bindings.value, cbs.value, reg.defs, sigs.0, sigs.1, sigs.2));
  }

  /** The document `App.Run` assembles from what the loops collected: every empty
      collection left null, one extension record, the thread-group size only when
      the shader declares one. */
  function Assemble(refl: D3D.ShaderReflection, c: Collected): (m: ShaderMeta)
    requires refl.minFeatureLevel.Read? && refl.desc.Read?
    ensures HeaderOf(m, refl)
    ensures (m.res.None? <==> |c.bindings| == 0) && (m.cbs.None? <==> |c.cbs| == 0) &&
            (m.types.None? <==> |c.types| == 0)
    ensures (m.inputs.None? <==> |c.inputs| == 0) && (m.outputs.None? <==> |c.outputs| == 0) &&
            (m.patchs.None? <==> |c.patchs| == 0)
  {
    var desc, tg := refl.desc.value, refl.threadGroupSize;
    ShaderMeta(
      VersionToStage(desc.version),
      if tg.total == 0 then None else Some([tg.x, tg.y, tg.z]),
      if |c.bindings| > 0 then Some(c.bindings) else None,
      if |c.cbs| > 0 then Some(c.cbs) else None,
      if |c.types| > 0 then Some(c.types) else None,
      if |c.inputs| > 0 then Some(c.inputs) else None,
      if |c.outputs| > 0 then Some(c.outputs) else None,
      if |c.patchs| > 0 then Some(c.patchs) else None,
      Some([Dx12ShaderMetaExt(VersionToString(desc.version), desc.creator, desc.flags,
                              Some(refl.minFeatureLevel.value), refl.requiresFlags, refl.isSampleFrequencyShader)]))
  }

  lemma AssembleRes(refl: D3D.ShaderReflection, c: Collected)
    requires refl.minFeatureLevel.Read? && CollectedFrom(c, refl)
    ensures ResOf(Assemble(refl, c), refl)
  {
    ResOfCollected(Assemble(refl, c), refl, c.bindings);
  }

  /** The `Types` property read back is the registry the loops filled. */
  lemma AssembledTypes(refl: D3D.ShaderReflection, c: Collected)
    requires refl.minFeatureLevel.Read? && refl.desc.Read?
    ensures TypesOf(Assemble(refl, c)) == c.types
  {
    if |c.types| == 0 {
      assert c.types == map[];
    }
  }

  lemma AssembleCbs(refl: D3D.ShaderReflection, c: Collected)
    requires refl.minFeatureLevel.Read? && CollectedFrom(c, refl)
    ensures CbsFieldOf(Assemble(refl, c), refl)
  {
    AssembledTypes(refl, c);
    CbsFieldOfCollected(Assemble(refl, c), refl, c.cbs);
  }

  lemma AssembleTypes(refl: D3D.ShaderReflection, c: Collected)
    requires refl.minFeatureLevel.Read? && CollectedFrom(c, refl)
    ensures TypesFieldOf(Assemble(refl, c), refl)
  {
    AssembledTypes(refl, c);
    TypesFieldOfCollected(Assemble(refl, c), refl, c.cbs, c.types);
  }

  lemma AssembleSignatures(refl: D3D.ShaderReflection, c: Collected)
    requires refl.minFeatureLevel.Read? && CollectedFrom(c, refl)
    ensures SignaturesOf(Assemble(refl, c), refl)
  {
    SignaturesOfCollected(Assemble(refl, c), refl, c.inputs, c.outputs, c.patchs);
  }

  /** The extraction (`App.Run` from the feature-level query to the assembled
      document). `supply` stands for `Guid.NewGuid`. */
  method Run(refl: D3D.ShaderReflection, supply: nat -> string, ghost rank: map<D3D.TypeHandle, nat>)
    returns (r: Result<ShaderMeta>)
    requires D3D.RankedGraph(refl.types, rank)
    ensures refl.minFeatureLevel.Failed? || refl.desc.Failed? ==> r == Err(DescriptorReadFailed)
    ensures refl.desc.Read? && ReadBindings(refl, refl.desc.value.boundResources as nat).Err? ==> r.Err?
    ensures refl.desc.Read? && refl.desc.value.patchConstantParameters > refl.desc.value.outputParameters ==> r.Err?
    ensures r.Ok? ==> HeaderOf(r.value, refl) && ResOf(r.value, refl) && SignaturesOf(r.value, refl)
    ensures r.Ok? ==> CbsFieldOf(r.value, refl) && TypesFieldOf(r.value, refl)
    ensures r.Ok? ==> KeysNamedOrDrawn(TypesOf(r.value), refl.types, supply)
    ensures refl.desc.Read? && (exists i :: 0 <= i < refl.desc.value.constantBuffers as nat && CbNameAt(refl, i).None?) ==>
      r.Err?
    ensures refl.desc.Read? && !SignaturesReadable(refl, refl.desc.value) ==> r.Err?
    ensures refl.minFeatureLevel.Read? && Extractable(refl, supply) ==> r.Ok?
  {
    if refl.minFeatureLevel.Failed? || refl.desc.Failed? {
      return Err(DescriptorReadFailed);
    }
    var c :- Collect(refl, supply, rank);
    AssembleRes(refl, c);
    AssembleCbs(refl, c);
    AssembleTypes(refl, c);
    AssembledTypes(refl, c);
    AssembleSignatures(refl, c);
    r := Ok(Assemble(refl, c));
  }
}
