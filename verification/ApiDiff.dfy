/** Manifests of an API, their canonical record lists, and the difference of two. */
module ApiDiff {
  import opened Ordering

  datatype Option<+T> = Some(value: T) | None

  datatype Result<+T> = Ok(value: T) | Err(error: Error)

  datatype Error = ConflictingDuplicate(name: string) | DuplicateKey

  function Keys<R>(records: seq<R>, key: R -> string): (names: seq<string>)
    ensures |names| == |records| && forall i :: 0 <= i < |records| ==> names[i] == key(records[i])
  {
    seq(|records|, i requires 0 <= i < |records| => key(records[i]))
  }

  function ElementsOf<R>(records: seq<R>): set<R> {
    set record | record in records
  }

  // ---- Canonical record lists ----------------------------------------------

  /** Two different records have one key. */
  ghost predicate Conflicting<R>(records: seq<R>, key: R -> string, name: string) {
    exists i, j :: 0 <= i < |records| && 0 <= j < |records| &&
      key(records[i]) == name == key(records[j]) && records[i] != records[j]
  }

  /** The same records, strictly sorted by their keys. */
  predicate Canonical<R(==)>(unique: seq<R>, records: seq<R>, key: R -> string) {
    StrictlySorted(Keys(unique, key)) && ElementsOf(unique) == ElementsOf(records)
  }

  /** `unique_records`: the canonical list, or a refusal when two records disagree. */
  method UniqueRecords<R(==)>(records: seq<R>, key: R -> string) returns (r: Result<seq<R>>)
    ensures r.Ok? <==> !exists name :: Conflicting(records, key, name)
    ensures r.Ok? ==> Canonical(r.value, records, key)
    ensures r.Err? ==> r.error.ConflictingDuplicate? && Conflicting(records, key, r.error.name)
  {
    var unique: map<string, R> := map[];
    for k := 0 to |records|
      invariant Gathers(unique, records[..k], key)
    {
      var record := records[k];
      var name := key(record);
      if name in unique && unique[name] != record {
        var j :| 0 <= j < |records[..k]| && records[..k][j] == unique[name];
        assert records[j] == unique[name] && key(records[j]) == name;
        assert Conflicting(records, key, name);
        return Err(ConflictingDuplicate(name));
      }
      assert records[..k + 1] == records[..k] + [record];
      unique := unique[name := record];
    }
    assert records[..|records|] == records;
    r := Ok(InOrder(unique, Sorted(unique.Keys)));
  }

  /** Every record is held under its key, and nothing else is. */
  predicate Gathers<R(==)>(unique: map<string, R>, records: seq<R>, key: R -> string) {
    && (forall name :: name in unique ==> key(unique[name]) == name && unique[name] in records)
    && (forall record :: record in records ==> key(record) in unique && unique[key(record)] == record)
  }

  /** `[unique[name] for name in names]`. */
  function InOrder<R>(unique: map<string, R>, names: seq<string>): (records: seq<R>)
    requires Elements(names) <= unique.Keys
    ensures |records| == |names|
    ensures forall i :: 0 <= i < |names| ==> names[i] in unique && records[i] == unique[names[i]]
  {
    assert forall i :: 0 <= i < |names| ==> names[i] in Elements(names);
    seq(|names|, i requires 0 <= i < |names| => unique[names[i]])
  }

  /** A canonical list is fixed by the set of records: their order does not matter. */
  lemma CanonicalUnique<R>(a: seq<R>, b: seq<R>, records: seq<R>, others: seq<R>, key: R -> string)
    requires Canonical(a, records, key) && Canonical(b, others, key) && ElementsOf(records) == ElementsOf(others)
    ensures a == b
  {
    KeysOfSameElements(a, b, key);
    StrictlySortedUnique(Keys(a, key), Keys(b, key));
    forall i | 0 <= i < |a| ensures a[i] == b[i] {
      assert a[i] in ElementsOf(a) && |a| == |Keys(a, key)| == |b|;
      var j :| 0 <= j < |b| && b[j] == a[i];
      StrictlySortedDistinct(Keys(b, key));
      assert Keys(a, key)[i] == Keys(b, key)[i] == Keys(b, key)[j];
    }
  }

  lemma KeysOfSameElements<R>(a: seq<R>, b: seq<R>, key: R -> string)
    requires ElementsOf(a) == ElementsOf(b)
    ensures Elements(Keys(a, key)) == Elements(Keys(b, key))
  {
    KeysWithin(a, b, key);
    KeysWithin(b, a, key);
  }

  lemma KeysWithin<R>(a: seq<R>, b: seq<R>, key: R -> string)
    requires ElementsOf(a) <= ElementsOf(b)
    ensures Elements(Keys(a, key)) <= Elements(Keys(b, key))
  {
    forall name | name in Elements(Keys(a, key)) ensures name in Elements(Keys(b, key)) {
      var i :| 0 <= i < |a| && Keys(a, key)[i] == name;
      assert a[i] in ElementsOf(a);
      var j :| 0 <= j < |b| && b[j] == a[i];
      assert Keys(b, key)[j] == name;
    }
  }

  /** A canonical list is its own canonical list, and nothing conflicts in it. */
  lemma CanonicalTwice<R>(unique: seq<R>, records: seq<R>, key: R -> string, again: seq<R>)
    requires Canonical(unique, records, key)
    ensures !exists name :: Conflicting(unique, key, name)
    ensures Canonical(again, unique, key) ==> again == unique
  {
    StrictlySortedDistinct(Keys(unique, key));
    forall name ensures !Conflicting(unique, key, name) {
      forall i, j | 0 <= i < |unique| && 0 <= j < |unique| && key(unique[i]) == name == key(unique[j]) ensures i == j {
        assert Keys(unique, key)[i] == Keys(unique, key)[j];
      }
    }
    if Canonical(again, unique, key) {
      CanonicalUnique(again, unique, unique, records, key);
    }
  }

  // ---- Keyed records -------------------------------------------------------

  predicate DistinctKeys<R>(records: seq<R>, key: R -> string) {
    forall i, j :: 0 <= i < j < |records| ==> key(records[i]) != key(records[j])
  }

  /** `{key(item): item for item in items}`: the last item of a key stays. */
  function ByKey<R>(records: seq<R>, key: R -> string): map<string, R> {
    if records == [] then map[]
    else
      var last := records[|records| - 1];
      ByKey(records[..|records| - 1], key)[key(last) := last]
  }

  function Keyed<R>(records: seq<R>, key: R -> string): Result<map<string, R>> {
    if |ByKey(records, key)| != |records| then Err(DuplicateKey) else Ok(ByKey(records, key))
  }

  predicate HoldsItsKeys<R>(m: map<string, R>, key: R -> string) {
    forall name :: name in m ==> key(m[name]) == name
  }

  lemma {:induction false} ByKeyHolds<R>(records: seq<R>, key: R -> string)
    ensures ByKey(records, key).Keys == Elements(Keys(records, key))
    ensures HoldsItsKeys(ByKey(records, key), key)
  {
    if records != [] {
      var front, last := records[..|records| - 1], records[|records| - 1];
      ByKeyHolds(front, key);
      KeysOfMore(front, last, key);
      assert records == front + [last];
    }
  }

  lemma {:induction false} ByKeyCounts<R>(records: seq<R>, key: R -> string)
    ensures |ByKey(records, key)| <= |records|
    ensures |ByKey(records, key)| == |records| <==> DistinctKeys(records, key)
  {
    if records != [] {
      var front, last := records[..|records| - 1], records[|records| - 1];
      ByKeyCounts(front, key);
      ByKeyHolds(front, key);
      DistinctGrows(front, last, key);
      assert records == front + [last];
    }
  }

  lemma DistinctGrows<R>(front: seq<R>, last: R, key: R -> string)
    requires ByKey(front, key).Keys == Elements(Keys(front, key))
    ensures DistinctKeys(front + [last], key) <==> DistinctKeys(front, key) && key(last) !in ByKey(front, key)
  {
    var records := front + [last];
    if key(last) in ByKey(front, key) {
      var i :| 0 <= i < |front| && Keys(front, key)[i] == key(last);
      assert key(records[i]) == key(records[|front|]);
    } else {
      forall i | 0 <= i < |front| ensures key(records[i]) != key(last) {
        assert Keys(front, key)[i] in Elements(Keys(front, key));
      }
    }
    if DistinctKeys(records, key) {
      forall i, j | 0 <= i < j < |front| ensures key(front[i]) != key(front[j]) {
        assert key(records[i]) != key(records[j]);
      }
    }
  }

  lemma KeysOfMore<R>(records: seq<R>, last: R, key: R -> string)
    ensures Elements(Keys(records + [last], key)) == Elements(Keys(records, key)) + {key(last)}
  {
    assert Keys(records + [last], key) == Keys(records, key) + [key(last)];
    forall name | name in Elements(Keys(records, key)) + {key(last)} ensures name in Keys(records, key) + [key(last)] {}
  }

  /** `keyed` fails exactly when two records share a key. */
  lemma KeyedFails<R>(records: seq<R>, key: R -> string)
    ensures Keyed(records, key).Ok? <==> DistinctKeys(records, key)
  {
    ByKeyCounts(records, key);
  }

  // ---- Comparing -----------------------------------------------------------

  datatype Change<R> = Change(id: string, before: R, after: R)

  datatype Comparison<R> = Comparison(added: seq<R>, removed: seq<R>, changed: seq<Change<R>>) {
    predicate Empty() {
      added == [] && removed == [] && changed == []
    }
  }

  function Shared<R(==)>(was: map<string, R>, now: map<string, R>): set<string> {
    set name | name in was && name in now && was[name] != now[name]
  }

  function Changes<R>(was: map<string, R>, now: map<string, R>, names: seq<string>): (changes: seq<Change<R>>)
    requires Elements(names) <= was.Keys * now.Keys
    ensures |changes| == |names|
    ensures forall i :: 0 <= i < |names| ==>
              && names[i] in was && names[i] in now
              && changes[i] == Change(names[i], was[names[i]], now[names[i]])
  {
    assert forall i :: 0 <= i < |names| ==> names[i] in Elements(names);
    seq(|names|, i requires 0 <= i < |names| => Change(names[i], was[names[i]], now[names[i]]))
  }

  function CompareKeyed<R(==)>(was: map<string, R>, now: map<string, R>): Comparison<R> {
    Comparison(
      InOrder(now, Sorted(now.Keys - was.Keys)),
      InOrder(was, Sorted(was.Keys - now.Keys)),
      Changes(was, now, Sorted(Shared(was, now))))
  }

  /** `compare`. */
  function Compare<R(==)>(before: seq<R>, after: seq<R>, key: R -> string): Result<Comparison<R>> {
    match (Keyed(before, key), Keyed(after, key))
    case (Ok(was), Ok(now)) => Ok(CompareKeyed(was, now))
    case _ => Err(DuplicateKey)
  }

  /** Reads a comparison as an edit: drop what was removed, overwrite what changed, and
      insert what was added. */
  function Patch<R>(was: map<string, R>, edit: Comparison<R>, key: R -> string): map<string, R> {
    was - Elements(Keys(edit.removed, key)) + ByKey(Afters(edit), key) + ByKey(edit.added, key)
  }

  function Afters<R>(edit: Comparison<R>): (records: seq<R>)
    ensures |records| == |edit.changed| && forall i :: 0 <= i < |records| ==> records[i] == edit.changed[i].after
  {
    seq(|edit.changed|, i requires 0 <= i < |edit.changed| => edit.changed[i].after)
  }

  predicate OverwritesWith<R(==)>(edit: Comparison<R>, key: R -> string, now: map<string, R>, names: set<string>) {
    && ByKey(Afters(edit), key).Keys == names
    && forall name :: name in ByKey(Afters(edit), key) ==> name in now && ByKey(Afters(edit), key)[name] == now[name]
  }

  /** Records listed by distinct names are read back by those names. */
  lemma {:induction false} ReadBack<R>(m: map<string, R>, names: seq<string>, records: seq<R>, key: R -> string)
    requires HoldsItsKeys(m, key) && |records| == |names|
    requires forall i :: 0 <= i < |names| ==> names[i] in m && records[i] == m[names[i]]
    ensures Keys(records, key) == names
    ensures ByKey(records, key).Keys == Elements(names)
    ensures forall name :: name in ByKey(records, key) ==> name in m && ByKey(records, key)[name] == m[name]
  {
    if records != [] {
      var front := records[..|records| - 1];
      ReadBack(m, names[..|names| - 1], front, key);
      assert Elements(names) == Elements(names[..|names| - 1]) + {names[|names| - 1]} by {
        assert names == names[..|names| - 1] + [names[|names| - 1]];
      }
    }
  }

  /** Applying the comparison to the old records gives exactly the new ones. */
  lemma PatchGivesNew<R>(was: map<string, R>, now: map<string, R>, key: R -> string)
    requires HoldsItsKeys(was, key) && HoldsItsKeys(now, key)
    ensures Patch(was, CompareKeyed(was, now), key) == now
  {
    var edit := CompareKeyed(was, now);
    ReadBack(was, Sorted(was.Keys - now.Keys), edit.removed, key);
    ReadBack(now, Sorted(Shared(was, now)), Afters(edit), key);
    ReadBack(now, Sorted(now.Keys - was.Keys), edit.added, key);
    PatchedKeys(was, now, edit, key);
  }

  lemma PatchedKeys<R>(was: map<string, R>, now: map<string, R>, edit: Comparison<R>, key: R -> string)
    requires Keys(edit.removed, key) == Sorted(was.Keys - now.Keys)
    requires OverwritesWith(edit, key, now, Shared(was, now)) && ByKey(edit.added, key).Keys == now.Keys - was.Keys
    requires forall name :: name in ByKey(edit.added, key) ==> name in now && ByKey(edit.added, key)[name] == now[name]
    ensures Patch(was, edit, key) == now
  {
    var patched := Patch(was, edit, key);
    assert patched.Keys == now.Keys;
    forall name | name in now ensures patched[name] == now[name] {
      assert name in was && name !in Shared(was, now) ==> was[name] == now[name];
    }
  }

  /** The comparison the other way round adds what this one removes. */
  lemma CompareSwapped<R>(was: map<string, R>, now: map<string, R>)
    ensures var there, back := CompareKeyed(was, now), CompareKeyed(now, was);
            && back.added == there.removed && back.removed == there.added
            && |back.changed| == |there.changed|
            && forall i :: 0 <= i < |back.changed| ==>
                 back.changed[i] == Change(there.changed[i].id, there.changed[i].after, there.changed[i].before)
  {
    assert Shared(was, now) == Shared(now, was);
  }

  /** The comparison is empty exactly when the keyed records are the same. */
  lemma EmptyMeansSame<R>(was: map<string, R>, now: map<string, R>)
    ensures CompareKeyed(was, now).Empty() <==> was == now
  {}

  /** The lists compared, end to end: the comparison exists when keys are distinct, it
      edits the one into the other, it is empty exactly when they agree as keyed maps,
      and it turns round. */
  lemma CompareIsAnEdit<R>(before: seq<R>, after: seq<R>, key: R -> string)
    ensures Compare(before, after, key).Ok? <==> DistinctKeys(before, key) && DistinctKeys(after, key)
    ensures Compare(before, after, key).Ok? ==>
              var edit := Compare(before, after, key).value;
              && Patch(ByKey(before, key), edit, key) == ByKey(after, key)
              && (edit.Empty() <==> ByKey(before, key) == ByKey(after, key))
              && Compare(after, before, key).Ok?
              && Compare(after, before, key).value.added == edit.removed
              && Compare(after, before, key).value.removed == edit.added
  {
    KeyedFails(before, key);
    KeyedFails(after, key);
    if Compare(before, after, key).Ok? {
      ByKeyHolds(before, key);
      ByKeyHolds(after, key);
      PatchGivesNew(ByKey(before, key), ByKey(after, key), key);
      EmptyMeansSame(ByKey(before, key), ByKey(after, key));
      CompareSwapped(ByKey(before, key), ByKey(after, key));
    }
  }

  // ---- Manifests -----------------------------------------------------------

  /** What the inventory says of one export; `unlisted` stands for every other field. */
  datatype InventoryExport = InventoryExport(
    name: string, kind: Option<string>, definedIn: Option<string>, qualname: Option<string>,
    signature: Option<string>, accessError: Option<string>, unlisted: string)

  datatype InventoryModule = InventoryModule(name: string, exports: seq<InventoryExport>)

  datatype Inventory = Inventory(
    package: string, version: string, modules: seq<InventoryModule>,
    rootExports: seq<InventoryExport>, classes: seq<Class>)

  datatype Export =
    | Reached(exportModule: string, name: string, kind: string, definedIn: Option<string>,
              qualname: Option<string>, signature: Option<string>)
    | Unreached(exportModule: string, name: string, accessError: Option<string>)

  datatype RootExport = RootExport(
    name: string, kind: Option<string>, definedIn: Option<string>, qualname: Option<string>, signature: Option<string>)

  datatype Class = Class(id: string, details: string)

  datatype Manifest = Manifest(
    package: string, version: string, modules: seq<string>, rootExports: seq<RootExport>,
    moduleExports: seq<Export>, classes: seq<Class>)

  function ExportKey(e: Export): string {
    e.exportModule + "." + e.name
  }

  function ModuleExport(moduleName: string, e: InventoryExport): Export {
    match e.kind
    case None => Unreached(moduleName, e.name, e.accessError)
    case Some(kind) => Reached(moduleName, e.name, kind, e.definedIn, e.qualname, e.signature)
  }

  function RootExportOf(e: InventoryExport): RootExport {
    RootExport(e.name, e.kind, e.definedIn, e.qualname, e.signature)
  }

  ghost predicate IsExportOf(e: Export, modules: seq<InventoryModule>) {
    exists m, x :: m in modules && x in m.exports && e == ModuleExport(m.name, x)
  }

  /** The exports of all modules, in the order of the inventory. */
  method AllExports(modules: seq<InventoryModule>) returns (exports: seq<Export>)
    ensures forall e :: e in exports <==> IsExportOf(e, modules)
  {
    exports := [];
    for k := 0 to |modules|
      invariant forall e :: e in exports <==> IsExportOf(e, modules[..k])
    {
      ghost var before := exports;
      var source := modules[k];
      for i := 0 to |source.exports|
        invariant forall e :: e in exports <==>
                    e in before || exists x :: x in source.exports[..i] && e == ModuleExport(source.name, x)
      {
        assert source.exports[..i + 1] == source.exports[..i] + [source.exports[i]];
        exports := exports + [ModuleExport(source.name, source.exports[i])];
      }
      assert source.exports[..|source.exports|] == source.exports;
      assert modules[..k + 1] == modules[..k] + [source];
      forall e ensures e in exports <==> IsExportOf(e, modules[..k + 1]) {}
    }
    assert modules[..|modules|] == modules;
  }

  /** Two exports with one dotted name are the same as far as a manifest goes. */
  predicate Agree(m: InventoryModule, x: InventoryExport, n: InventoryModule, y: InventoryExport) {
    m.name + "." + x.name == n.name + "." + y.name ==>
      && m.name == n.name && x.name == y.name && x.kind == y.kind
      && (x.kind == None ==> x.accessError == y.accessError)
      && (x.kind != None ==> x.definedIn == y.definedIn && x.qualname == y.qualname && x.signature == y.signature)
  }

  ghost predicate NamesAgree(modules: seq<InventoryModule>) {
    forall m, x, n, y | m in modules && x in m.exports && n in modules && y in n.exports :: Agree(m, x, n, y)
  }

  ghost predicate KeysAgree(modules: seq<InventoryModule>) {
    forall a, b | IsExportOf(a, modules) && IsExportOf(b, modules) && ExportKey(a) == ExportKey(b) :: a == b
  }

  lemma AgreeMeans(m: InventoryModule, x: InventoryExport, n: InventoryModule, y: InventoryExport)
    ensures var a, b := ModuleExport(m.name, x), ModuleExport(n.name, y);
            Agree(m, x, n, y) <==> (ExportKey(a) == ExportKey(b) ==> a == b)
  {}

  lemma KeysAgreeMeans(modules: seq<InventoryModule>)
    ensures KeysAgree(modules) <==> NamesAgree(modules)
  {
    if NamesAgree(modules) {
      forall a, b | IsExportOf(a, modules) && IsExportOf(b, modules) && ExportKey(a) == ExportKey(b) ensures a == b {
        var m, x :| m in modules && x in m.exports && a == ModuleExport(m.name, x);
        var n, y :| n in modules && y in n.exports && b == ModuleExport(n.name, y);
        AgreeMeans(m, x, n, y);
      }
    }
    if KeysAgree(modules) {
      forall m, x, n, y | m in modules && x in m.exports && n in modules && y in n.exports ensures Agree(m, x, n, y) {
        assert IsExportOf(ModuleExport(m.name, x), modules) && IsExportOf(ModuleExport(n.name, y), modules);
        AgreeMeans(m, x, n, y);
      }
    }
  }

  /** The record of an export, field by field. */
  lemma ExportsListed(modules: seq<InventoryModule>, exports: seq<Export>)
    requires forall e :: e in exports <==> IsExportOf(e, modules)
    ensures forall m, x | m in modules && x in m.exports ::
              match x.kind
              case Some(kind) => Reached(m.name, x.name, kind, x.definedIn, x.qualname, x.signature) in exports
              case None => Unreached(m.name, x.name, x.accessError) in exports
    ensures forall e | e in exports :: exists m, x :: m in modules && x in m.exports && Records(e, m, x)
  {
    forall m, x | m in modules && x in m.exports
      ensures match x.kind
              case Some(kind) => Reached(m.name, x.name, kind, x.definedIn, x.qualname, x.signature) in exports
              case None => Unreached(m.name, x.name, x.accessError) in exports
    {
      assert IsExportOf(ModuleExport(m.name, x), modules);
    }
    forall e | e in exports ensures exists m, x :: m in modules && x in m.exports && Records(e, m, x) {
      var m, x :| m in modules && x in m.exports && e == ModuleExport(m.name, x);
      assert Records(e, m, x);
    }
  }

  predicate Records(e: Export, m: InventoryModule, x: InventoryExport) {
    && e.exportModule == m.name && e.name == x.name
    && match e
       case Unreached(_, _, accessError) => x.kind == None && accessError == x.accessError
       case Reached(_, _, kind, definedIn, qualname, signature) =>
         x.kind == Some(kind) && definedIn == x.definedIn && qualname == x.qualname && signature == x.signature
  }

  /** `manifest`: refused when two different exports have one dotted name. */
  method BuildManifest(inventory: Inventory) returns (r: Result<Manifest>)
    ensures r.Ok? <==> NamesAgree(inventory.modules)
    ensures r.Ok? ==>
              && StrictlySorted(Keys(r.value.moduleExports, ExportKey))
              && Keyed(r.value.moduleExports, ExportKey).Ok?
    ensures r.Ok? ==>
              forall m, x | m in inventory.modules && x in m.exports ::
                match x.kind
                case Some(kind) =>
                  Reached(m.name, x.name, kind, x.definedIn, x.qualname, x.signature) in r.value.moduleExports
                case None => Unreached(m.name, x.name, x.accessError) in r.value.moduleExports
    ensures r.Ok? ==>
              forall e | e in r.value.moduleExports ::
                exists m, x :: m in inventory.modules && x in m.exports && Records(e, m, x)
    ensures r.Ok? ==>
              && r.value.modules == Keys(inventory.modules, (m: InventoryModule) => m.name)
              && r.value.package == inventory.package && r.value.version == inventory.version
              && r.value.classes == inventory.classes
    ensures r.Ok? ==>
              && |r.value.rootExports| == |inventory.rootExports|
              && forall i :: 0 <= i < |inventory.rootExports| ==>
                   var e, root := inventory.rootExports[i], r.value.rootExports[i];
                   && root.name == e.name && root.kind == e.kind && root.definedIn == e.definedIn
                   && root.qualname == e.qualname && root.signature == e.signature
  {
    var exports := AllExports(inventory.modules);
    var unique := UniqueRecords(exports, ExportKey);
    KeysAgreeMeans(inventory.modules);
    if unique.Err? {
      ghost var name := unique.error.name;
      ghost var i, j :| 0 <= i < |exports| && 0 <= j < |exports| &&
        ExportKey(exports[i]) == name == ExportKey(exports[j]) && exports[i] != exports[j];
      assert IsExportOf(exports[i], inventory.modules) && IsExportOf(exports[j], inventory.modules);
      return Err(unique.error);
    }
    forall a, b | IsExportOf(a, inventory.modules) && IsExportOf(b, inventory.modules) && ExportKey(a) == ExportKey(b)
      ensures a == b
    {
      var i :| 0 <= i < |exports| && exports[i] == a;
      var j :| 0 <= j < |exports| && exports[j] == b;
      assert !Conflicting(exports, ExportKey, ExportKey(a));
    }
    CanonicalKeyed(unique.value, exports, ExportKey);
    forall e ensures e in unique.value <==> IsExportOf(e, inventory.modules) {
      assert e in ElementsOf(unique.value) <==> e in ElementsOf(exports);
    }
    ExportsListed(inventory.modules, unique.value);
    r := Ok(Manifest(
      inventory.package, inventory.version, Keys(inventory.modules, (m: InventoryModule) => m.name),
      seq(|inventory.rootExports|, i requires 0 <= i < |inventory.rootExports| =>
        RootExportOf(inventory.rootExports[i])),
      unique.value, inventory.classes));
  }

  /** A canonical list never fails to be keyed. */
  lemma CanonicalKeyed<R>(unique: seq<R>, records: seq<R>, key: R -> string)
    requires Canonical(unique, records, key)
    ensures Keyed(unique, key).Ok?
  {
    StrictlySortedDistinct(Keys(unique, key));
    KeyedFails(unique, key);
  }

  // ---- The report ----------------------------------------------------------

  function Itself(name: string): string {
    name
  }

  function RootKey(e: RootExport): string {
    e.name
  }

  function ClassKey(c: Class): string {
    c.id
  }

  datatype Report = Report(
    modules: Comparison<string>, rootExports: Comparison<RootExport>,
    moduleExports: Comparison<Export>, classes: Comparison<Class>, clean: bool)

  /** `diff`. */
  function Diff(before: Manifest, after: Manifest): Result<Report> {
    match (Compare(before.modules, after.modules, Itself),
           Compare(before.rootExports, after.rootExports, RootKey),
           Compare(before.moduleExports, after.moduleExports, ExportKey),
           Compare(before.classes, after.classes, ClassKey))
    case (Ok(m), Ok(r), Ok(e), Ok(c)) =>
      var changed := |m.added| + |m.removed| + |m.changed| + |r.added| + |r.removed| + |r.changed| +
                     |e.added| + |e.removed| + |e.changed| + |c.added| + |c.removed| + |c.changed| > 0;
      Ok(Report(m, r, e, c, !changed))
    case _ => Err(DuplicateKey)
  }

  /** A report is clean exactly when the four collections agree as keyed maps. */
  lemma CleanMeansSame(before: Manifest, after: Manifest)
    ensures Diff(before, after).Ok? ==>
              (Diff(before, after).value.clean <==>
                 && ByKey(before.modules, Itself) == ByKey(after.modules, Itself)
                 && ByKey(before.rootExports, RootKey) == ByKey(after.rootExports, RootKey)
                 && ByKey(before.moduleExports, ExportKey) == ByKey(after.moduleExports, ExportKey)
                 && ByKey(before.classes, ClassKey) == ByKey(after.classes, ClassKey))
  {
    CompareIsAnEdit(before.modules, after.modules, Itself);
    CompareIsAnEdit(before.rootExports, after.rootExports, RootKey);
    CompareIsAnEdit(before.moduleExports, after.moduleExports, ExportKey);
    CompareIsAnEdit(before.classes, after.classes, ClassKey);
  }

  // ---- What a report says --------------------------------------------------

  lemma {:induction false} ByKeyAt<R>(records: seq<R>, key: R -> string, name: string)
    requires DistinctKeys(records, key)
    ensures name in ByKey(records, key) <==> exists x :: x in records && key(x) == name
    ensures forall x :: x in records && key(x) == name ==> ByKey(records, key)[name] == x
    ensures name in ByKey(records, key) ==> ByKey(records, key)[name] in records
  {
    if records != [] {
      var front, last := records[..|records| - 1], records[|records| - 1];
      ByKeyAt(front, key, name);
      assert records == front + [last];
    }
  }

  /** What a comparison lists, by the keys of the records. */
  lemma CompareMeans<R>(before: seq<R>, after: seq<R>, key: R -> string, x: R, c: Change<R>)
    requires Compare(before, after, key).Ok?
    ensures var edit := Compare(before, after, key).value;
            && (x in edit.added <==> x in after && forall y :: y in before ==> key(y) != key(x))
            && (x in edit.removed <==> x in before && forall y :: y in after ==> key(y) != key(x))
            && (c in edit.changed <==>
                  && c.before in before && c.after in after && c.before != c.after
                  && key(c.before) == c.id && key(c.after) == c.id)
  {
    var was, now, edit := ByKey(before, key), ByKey(after, key), Compare(before, after, key).value;
    CompareIsAnEdit(before, after, key);
    ByKeyAt(before, key, key(x));
    ByKeyAt(after, key, key(x));
    ByKeyAt(before, key, c.id);
    ByKeyAt(after, key, c.id);
    ByKeyHolds(before, key);
    ByKeyHolds(after, key);
    InOrderHas(now, now.Keys - was.Keys, key, x);
    InOrderHas(was, was.Keys - now.Keys, key, x);
    ChangesHave(was, now, c);
  }

  lemma InOrderHas<R>(m: map<string, R>, names: set<string>, key: R -> string, x: R)
    requires names <= m.Keys && HoldsItsKeys(m, key)
    ensures x in InOrder(m, Sorted(names)) <==> key(x) in names && m[key(x)] == x
  {
    var sorted := Sorted(names);
    if key(x) in names && m[key(x)] == x {
      assert key(x) in Elements(sorted);
      var i :| 0 <= i < |sorted| && sorted[i] == key(x);
      assert InOrder(m, sorted)[i] == x;
    }
    if x in InOrder(m, sorted) {
      var i :| 0 <= i < |sorted| && InOrder(m, sorted)[i] == x;
      assert sorted[i] in Elements(sorted);
    }
  }

  lemma ChangesHave<R>(was: map<string, R>, now: map<string, R>, c: Change<R>)
    ensures c in Changes(was, now, Sorted(Shared(was, now))) <==>
            c.id in was && c.id in now && c.before == was[c.id] && c.after == now[c.id] && c.before != c.after
  {
    var names := Sorted(Shared(was, now));
    if c.id in Shared(was, now) && c.before == was[c.id] && c.after == now[c.id] {
      assert c.id in Elements(names);
      var i :| 0 <= i < |names| && names[i] == c.id;
      assert Changes(was, now, names)[i] == c;
    }
    if c in Changes(was, now, names) {
      var i :| 0 <= i < |names| && Changes(was, now, names)[i] == c;
      assert names[i] in Elements(names);
    }
  }

  /** The comparison lists the records of new names, those of lost names, and for every
      other name with two different records the old and the new one. */
  ghost predicate Tells<R(!new)>(edit: Comparison<R>, before: seq<R>, after: seq<R>, name: R -> string) {
    && (forall x :: x in edit.added <==> x in after && forall y :: y in before ==> name(y) != name(x))
    && (forall x :: x in edit.removed <==> x in before && forall y :: y in after ==> name(y) != name(x))
    && (forall c :: c in edit.changed <==>
          && c.before in before && c.after in after && c.before != c.after
          && name(c.before) == c.id && name(c.after) == c.id)
  }

  lemma CompareTells<R(!new)>(before: seq<R>, after: seq<R>, key: R -> string, name: R -> string)
    requires Compare(before, after, key).Ok? && forall x :: name(x) == key(x)
    ensures Tells(Compare(before, after, key).value, before, after, name)
  {
    var edit := Compare(before, after, key).value;
    forall x ensures x in edit.added <==> x in after && forall y :: y in before ==> name(y) != name(x) {
      CompareMeans(before, after, key, x, Change("", x, x));
    }
    forall x ensures x in edit.removed <==> x in before && forall y :: y in after ==> name(y) != name(x) {
      CompareMeans(before, after, key, x, Change("", x, x));
    }
    forall c: Change<R>
      ensures c in edit.changed <==>
                && c.before in before && c.after in after && c.before != c.after
                && name(c.before) == c.id && name(c.after) == c.id
    {
      CompareMeans(before, after, key, c.before, c);
    }
  }

  /** Manifests cannot be compared when two records of a collection share a name. */
  lemma DiffFails(before: Manifest, after: Manifest)
    ensures Diff(before, after).Ok? <==>
              forall m | m in {before, after} ::
                && DistinctKeys(m.modules, (m: string) => m)
                && DistinctKeys(m.rootExports, (e: RootExport) => e.name)
                && DistinctKeys(m.moduleExports, (e: Export) => e.exportModule + "." + e.name)
                && DistinctKeys(m.classes, (c: Class) => c.id)
  {
    CompareIsAnEdit(before.modules, after.modules, Itself);
    CompareIsAnEdit(before.rootExports, after.rootExports, RootKey);
    CompareIsAnEdit(before.moduleExports, after.moduleExports, ExportKey);
    CompareIsAnEdit(before.classes, after.classes, ClassKey);
  }

  /** The report, collection by collection: modules and root exports go by their name,
      module exports by their dotted name and classes by their id. */
  lemma ReportTells(before: Manifest, after: Manifest)
    requires Diff(before, after).Ok?
    ensures var report := Diff(before, after).value;
            && Tells(report.modules, before.modules, after.modules, (m: string) => m)
            && Tells(report.rootExports, before.rootExports, after.rootExports, (e: RootExport) => e.name)
            && Tells(report.moduleExports, before.moduleExports, after.moduleExports,
                     (e: Export) => e.exportModule + "." + e.name)
            && Tells(report.classes, before.classes, after.classes, (c: Class) => c.id)
  {
    CompareTells(before.modules, after.modules, Itself, (m: string) => m);
    CompareTells(before.rootExports, after.rootExports, RootKey, (e: RootExport) => e.name);
    CompareTells(before.moduleExports, after.moduleExports, ExportKey,
                 (e: Export) => e.exportModule + "." + e.name);
    CompareTells(before.classes, after.classes, ClassKey, (c: Class) => c.id);
  }

  lemma SameRecords<R>(before: seq<R>, after: seq<R>, key: R -> string)
    requires DistinctKeys(before, key) && DistinctKeys(after, key)
    ensures ByKey(before, key) == ByKey(after, key) <==> ElementsOf(before) == ElementsOf(after)
  {
    forall x ensures x in before <==> key(x) in ByKey(before, key) && ByKey(before, key)[key(x)] == x {
      ByKeyAt(before, key, key(x));
    }
    forall x ensures x in after <==> key(x) in ByKey(after, key) && ByKey(after, key)[key(x)] == x {
      ByKeyAt(after, key, key(x));
    }
    ByKeyHolds(before, key);
    ByKeyHolds(after, key);
    if ElementsOf(before) == ElementsOf(after) {
      assert forall x :: x in before <==> x in ElementsOf(before);
      assert forall x :: x in after <==> x in ElementsOf(after);
      forall name | name in ByKey(before, key) ensures name in ByKey(after, key) {
        ByKeyAt(before, key, name);
        ByKeyAt(after, key, name);
      }
      forall name | name in ByKey(after, key)
        ensures name in ByKey(before, key) && ByKey(before, key)[name] == ByKey(after, key)[name]
      {
        ByKeyAt(before, key, name);
        ByKeyAt(after, key, name);
      }
    }
  }

  /** A report is clean exactly when the manifests hold the same records: one that differs
      in a field is reported. */
  lemma CleanMeansSameRecords(before: Manifest, after: Manifest)
    requires Diff(before, after).Ok?
    ensures Diff(before, after).value.clean <==>
              && ElementsOf(before.modules) == ElementsOf(after.modules)
              && ElementsOf(before.rootExports) == ElementsOf(after.rootExports)
              && ElementsOf(before.moduleExports) == ElementsOf(after.moduleExports)
              && ElementsOf(before.classes) == ElementsOf(after.classes)
  {
    CompareIsAnEdit(before.modules, after.modules, Itself);
    CompareIsAnEdit(before.rootExports, after.rootExports, RootKey);
    CompareIsAnEdit(before.moduleExports, after.moduleExports, ExportKey);
    CompareIsAnEdit(before.classes, after.classes, ClassKey);
    CleanMeansSame(before, after);
    SameRecords(before.modules, after.modules, Itself);
    SameRecords(before.rootExports, after.rootExports, RootKey);
    SameRecords(before.moduleExports, after.moduleExports, ExportKey);
    SameRecords(before.classes, after.classes, ClassKey);
  }
}
