/**
 * The filter pipeline that converts objects between their "live" (in-memory,
 * plain) form and their database (encrypted, version-stamped) form
 * (src/js/service/data/filterService.js).
 *
 * A conversion computes, per object, a chain of filters from the object's own
 * model version and folds the object through that chain from left to right,
 * handing every filter the same filter options.
 */
module FilterService {
  import opened Wrappers
  import opened ModelVersions

  /** The opaque per-call settings handed unchanged to every filter. */
  type FilterOptions = map<string, string>

  /**
   * One persisted object: its raw `modelVersion` field (absent on legacy data)
   * and all its other fields, which the pipeline itself never inspects.
   */
  datatype Record = Record(modelVersion: Option<string>, fields: map<string, string>)

  /**
   * The services the pipeline calls but does not define: the version parser of
   * the model utilities and the encryption service. They are kept
   * uninterpreted: every property below holds for all of them.
   */
  datatype Collaborators = Collaborators(
    versionOf: Option<string> -> ModelVersion,           // modelUtil.getModelVersionObject
    encrypt: (Record, FilterOptions) -> Record,          // encryptionService.encryptObject
    decrypt: (Record, FilterOptions) -> Record)          // encryptionService.decryptObjects

  /** The filter functions a chain can hold. */
  datatype Filter =
    | Encrypt   // encryption, the last step before saving
    | Decrypt   // decryption, the first step after loading
    | Stamp     // sets `modelVersion` to the latest version string

  /** One filter applied to one object with the call's filter options. */
  function Apply(c: Collaborators, f: Filter, rec: Record, opts: FilterOptions): Record {
    match f
    case Encrypt => c.encrypt(rec, opts)
    case Decrypt => c.decrypt(rec, opts)
    case Stamp => rec.(modelVersion := Some(LatestVersionString))
  }

  /** Runs `rec` through `chain`, first filter first, all with the same options. */
  function RunChain(c: Collaborators, chain: seq<Filter>, rec: Record, opts: FilterOptions): Record
    decreases |chain|
  {
    if chain == [] then rec else RunChain(c, chain[1..], Apply(c, chain[0], rec, opts), opts)
  }

  /**
   * The objects a filter function sees along a chain: entry 0 is the input,
   * entry i + 1 is what filter i returned when handed entry i and the same
   * options, and the last entry is the result of the whole chain.
   */
  function Trace(c: Collaborators, chain: seq<Filter>, rec: Record, opts: FilterOptions): (t: seq<Record>)
    ensures |t| == |chain| + 1
    ensures t[0] == rec
    ensures forall i :: 0 <= i < |chain| ==> t[i + 1] == Apply(c, chain[i], t[i], opts)
    ensures t[|chain|] == RunChain(c, chain, rec, opts)
    decreases |chain|
  {
    if chain == [] then [rec]
    else
      var rest := Trace(c, chain[1..], Apply(c, chain[0], rec, opts), opts);
      var t := [rec] + rest;
      assert forall i :: 1 <= i < |chain| ==> chain[1..][i - 1] == chain[i] && t[i] == rest[i - 1];
      t
  }

  /**
   * The conversion steps that bring an object of version `v` to the latest
   * version. The per-version upgrade table is empty, so an outdated object only
   * gets the final stamp step; an object at the latest major gets nothing.
   */
  function ConversionChain(v: ModelVersion): (r: seq<Filter>)
    ensures r == [] <==> IsLatestMajor(v)
    ensures r != [] ==> r[|r| - 1] == Stamp
    ensures Encrypt !in r && Decrypt !in r
  {
    if IsLatestMajor(v) then [] else [Stamp]
  }

  /** The filters applied before saving: the conversion steps, then encryption. */
  function ToDatabaseChain(v: ModelVersion): (r: seq<Filter>)
    ensures |r| > 0 && r[|r| - 1] == Encrypt
    ensures r[..|r| - 1] == ConversionChain(v)
    ensures forall i :: 0 <= i < |r| - 1 ==> r[i] != Encrypt && r[i] != Decrypt
    ensures IsLatestMajor(v) ==> r == [Encrypt]
  {
    ConversionChain(v) + [Encrypt]
  }

  /**
   * The filters applied after loading: decryption first, but only when the
   * stored major version is truthy, then the conversion steps.
   */
  function FromDatabaseChain(v: ModelVersion): (r: seq<Filter>)
    ensures (|r| > 0 && r[0] == Decrypt) <==> Truthy(v.major)
    ensures Decrypt in r <==> Truthy(v.major)
    ensures Encrypt !in r
    ensures Truthy(v.major) ==> r[1..] == ConversionChain(v)
    ensures !Truthy(v.major) ==> r == ConversionChain(v)
    ensures IsLatestMajor(v) ==> r == [Decrypt]
  {
    if Truthy(v.major) then [Decrypt] + ConversionChain(v) else ConversionChain(v)
  }

  /** The chain one object goes through: computed from its own model version. */
  function ConvertOne(c: Collaborators, chainFor: ModelVersion -> seq<Filter>, rec: Record,
                      opts: FilterOptions): Record
  {
    RunChain(c, chainFor(c.versionOf(rec.modelVersion)), rec, opts)
  }

  /** One object converted to its database form. */
  function ToDatabase(c: Collaborators, rec: Record, opts: FilterOptions): Record {
    ConvertOne(c, ToDatabaseChain, rec, opts)
  }

  /** One object converted to its live form. */
  function FromDatabase(c: Collaborators, rec: Record, opts: FilterOptions): Record {
    ConvertOne(c, FromDatabaseChain, rec, opts)
  }

  /** What `filterObjects` accepts and returns: a bare object or an array. */
  datatype Objects = Single(rec: Record) | Many(recs: seq<Record>)

  /** The objects to convert: a bare object becomes a one-element sequence, an array is taken as it is. */
  function Wrap(objects: Objects): seq<Record> {
    match objects
    case Single(rec) => [rec]
    case Many(recs) => recs
  }

  /** Every object converted through its own chain; position i of the output comes from position i of the input. */
  function FilterAll(c: Collaborators, chainFor: ModelVersion -> seq<Filter>, recs: seq<Record>,
                     opts: FilterOptions): (r: seq<Record>)
    ensures |r| == |recs|
    ensures forall i :: 0 <= i < |recs| ==> r[i] == ConvertOne(c, chainFor, recs[i], opts)
    decreases |recs|
  {
    if recs == [] then []
    else [ConvertOne(c, chainFor, recs[0], opts)] + FilterAll(c, chainFor, recs[1..], opts)
  }

  /**
   * `filterObjects`: converts a bare object or an array. The result is an array
   * exactly when more than one object went in; a single converted object comes
   * back bare, and an empty array gives `undefined` (None).
   */
  function FilterObjects(c: Collaborators, objects: Objects, opts: FilterOptions,
                         chainFor: ModelVersion -> seq<Filter>): (r: Option<Objects>)
    ensures r.None? <==> |Wrap(objects)| == 0
    ensures (r.Some? && r.value.Many?) <==> |Wrap(objects)| > 1
    ensures |Wrap(objects)| == 1 ==> r == Some(Single(ConvertOne(c, chainFor, Wrap(objects)[0], opts)))
    ensures objects.Single? ==> r == Some(Single(ConvertOne(c, chainFor, objects.rec, opts)))
    ensures r.Some? && r.value.Many? ==>
      && |r.value.recs| == |Wrap(objects)|
      && forall i :: 0 <= i < |Wrap(objects)| ==>
           r.value.recs[i] == ConvertOne(c, chainFor, Wrap(objects)[i], opts)
  {
    var out := FilterAll(c, chainFor, Wrap(objects), opts);
    if |out| > 1 then Some(Many(out))
    else if out == [] then None
    else Some(Single(out[0]))
  }

  /**
   * `filterObjects` as the source writes it: a loop over the objects that
   * overwrites each array slot with the output of every filter in turn.
   */
  method FilterObjectsInPlace(c: Collaborators, objects: Objects, opts: FilterOptions,
                              chainFor: ModelVersion -> seq<Filter>) returns (r: Option<Objects>)
    ensures r == FilterObjects(c, objects, opts, chainFor)
  {
    var input := Wrap(objects);
    var objs := input;
    var i := 0;
    while i < |objs|
      invariant 0 <= i <= |objs| == |input|
      invariant forall j :: 0 <= j < i ==> objs[j] == ConvertOne(c, chainFor, input[j], opts)
      invariant forall j :: i <= j < |objs| ==> objs[j] == input[j]
    {
      var filterFns := chainFor(c.versionOf(objs[i].modelVersion));
      ghost var before := objs;
      var k := 0;
      while k < |filterFns|
        invariant 0 <= k <= |filterFns|
        invariant |objs| == |input|
        invariant objs[i] == RunChain(c, filterFns[..k], input[i], opts)
        invariant forall j :: 0 <= j < |objs| && j != i ==> objs[j] == before[j]
      {
        RunChainSnoc(c, filterFns[..k], filterFns[k], input[i], opts);
        assert filterFns[..k + 1] == filterFns[..k] + [filterFns[k]];
        objs := objs[i := Apply(c, filterFns[k], objs[i], opts)];
        k := k + 1;
      }
      assert filterFns[..k] == filterFns;
      i := i + 1;
    }
    assert objs == FilterAll(c, chainFor, input, opts);
    r := if |objs| > 1 then Some(Many(objs)) else if objs == [] then None else Some(Single(objs[0]));
  }

  /** Running `chain + [f]` is running `chain`, then handing its output to `f`. */
  lemma {:induction false} RunChainSnoc(c: Collaborators, chain: seq<Filter>, f: Filter, rec: Record,
                                        opts: FilterOptions)
    ensures RunChain(c, chain + [f], rec, opts) == Apply(c, f, RunChain(c, chain, rec, opts), opts)
    decreases |chain|
  {
    if chain == [] {
      assert [] + [f] == [f];
    } else {
      assert (chain + [f])[1..] == chain[1..] + [f];
      RunChainSnoc(c, chain[1..], f, Apply(c, chain[0], rec, opts), opts);
    }
  }

  /** Running `a + b` is running `a`, then running `b` on its output. */
  lemma {:induction false} RunChainAppend(c: Collaborators, a: seq<Filter>, b: seq<Filter>, rec: Record,
                                          opts: FilterOptions)
    ensures RunChain(c, a + b, rec, opts) == RunChain(c, b, RunChain(c, a, rec, opts), opts)
    decreases |a|
  {
    if a == [] {
      assert [] + b == b;
    } else {
      assert (a + b)[1..] == a[1..] + b;
      RunChainAppend(c, a[1..], b, Apply(c, a[0], rec, opts), opts);
    }
  }

  /** `convertLiveToDatabaseObjects` without its debug logging. */
  function ConvertLiveToDatabaseObjects(c: Collaborators, objects: Objects, opts: FilterOptions): (r: Option<Objects>)
    ensures objects.Single? ==> r == Some(Single(ToDatabase(c, objects.rec, opts)))
    ensures objects.Many? && |objects.recs| > 1 ==>
      r.Some? && r.value.Many? && |r.value.recs| == |objects.recs|
      && forall i :: 0 <= i < |objects.recs| ==> r.value.recs[i] == ToDatabase(c, objects.recs[i], opts)
  {
    FilterObjects(c, objects, opts, ToDatabaseChain)
  }

  /** `convertDatabaseToLiveObjects` without its debug logging. */
  function ConvertDatabaseToLiveObjects(c: Collaborators, objects: Objects, opts: FilterOptions): (r: Option<Objects>)
    ensures objects.Single? ==> r == Some(Single(FromDatabase(c, objects.rec, opts)))
    ensures objects.Many? && |objects.recs| > 1 ==>
      r.Some? && r.value.Many? && |r.value.recs| == |objects.recs|
      && forall i :: 0 <= i < |objects.recs| ==> r.value.recs[i] == FromDatabase(c, objects.recs[i], opts)
  {
    FilterObjects(c, objects, opts, FromDatabaseChain)
  }
}
