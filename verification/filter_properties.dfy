/**
 * Properties of the live/database filter pipeline that relate several
 * conversions, or a conversion to the collaborators it calls
 * (src/js/service/data/filterService.js).
 */
module FilterProperties {
  import opened Wrappers
  import opened ModelVersions
  import opened FilterService

  /** The object the conversion steps leave behind: stamped to the latest version unless already at the latest major. */
  function Upgraded(c: Collaborators, rec: Record): Record {
    if IsLatestMajor(c.versionOf(rec.modelVersion)) then rec
    else Record(Some(LatestVersionString), rec.fields)
  }

  /** The version parser reads the stamped latest version string back as the latest major version. */
  ghost predicate RegistryConsistent(c: Collaborators) {
    IsLatestMajor(c.versionOf(Some(LatestVersionString)))
  }

  /** Decryption undoes encryption under the same options. */
  ghost predicate DecryptUndoesEncrypt(c: Collaborators) {
    forall r, o :: c.decrypt(c.encrypt(r, o), o) == r
  }

  /** Encryption leaves the `modelVersion` field readable, as the load path requires. */
  ghost predicate EncryptKeepsVersion(c: Collaborators) {
    forall r, o :: c.encrypt(r, o).modelVersion == r.modelVersion
  }

  /**
   * The conversion steps alone: nothing for an object at the latest major; for
   * any other object, `modelVersion` becomes the latest version string and
   * every other field is left as it was.
   */
  lemma ConversionStampsOutdated(c: Collaborators, rec: Record, opts: FilterOptions)
    ensures var out := RunChain(c, ConversionChain(c.versionOf(rec.modelVersion)), rec, opts);
      && (IsLatestMajor(c.versionOf(rec.modelVersion)) ==> out == rec)
      && (!IsLatestMajor(c.versionOf(rec.modelVersion)) ==>
            out.modelVersion == Some(LatestVersionString) && out.fields == rec.fields)
  {
    var chain := ConversionChain(c.versionOf(rec.modelVersion));
    if chain != [] {
      assert chain == [Stamp];
      assert chain[1..] == [];
    }
  }

  /** Saving runs every conversion step first and encrypts their result last. */
  lemma ToDatabaseEncryptsLast(c: Collaborators, rec: Record, opts: FilterOptions)
    ensures ToDatabase(c, rec, opts) == c.encrypt(Upgraded(c, rec), opts)
  {
    var v := c.versionOf(rec.modelVersion);
    RunChainSnoc(c, ConversionChain(v), Encrypt, rec, opts);
    ConversionStampsOutdated(c, rec, opts);
  }

  /**
   * Loading decrypts first exactly when the stored major is truthy, and then
   * runs the conversion steps.
   */
  lemma FromDatabaseDecryptsFirst(c: Collaborators, rec: Record, opts: FilterOptions)
    ensures var v := c.versionOf(rec.modelVersion);
      FromDatabase(c, rec, opts) ==
        RunChain(c, ConversionChain(v), if Truthy(v.major) then c.decrypt(rec, opts) else rec, opts)
  {
    var v := c.versionOf(rec.modelVersion);
    if Truthy(v.major) {
      RunChainAppend(c, [Decrypt], ConversionChain(v), rec, opts);
      assert [Decrypt][1..] == [];
    }
  }

  /**
   * An object already at the latest major version: saving only encrypts it and
   * loading only decrypts it; no stamp step runs.
   */
  lemma LatestObjectOnlyEncryptedOrDecrypted(c: Collaborators, rec: Record, opts: FilterOptions)
    requires IsLatestMajor(c.versionOf(rec.modelVersion))
    ensures ConvertLiveToDatabaseObjects(c, Single(rec), opts) == Some(Single(c.encrypt(rec, opts)))
    ensures ConvertDatabaseToLiveObjects(c, Single(rec), opts) == Some(Single(c.decrypt(rec, opts)))
  {
    ToDatabaseEncryptsLast(c, rec, opts);
    FromDatabaseDecryptsFirst(c, rec, opts);
  }

  /**
   * A legacy object whose version has no truthy major (missing or zero), read
   * from the database: it is never decrypted, it comes back with the latest
   * version string and all its other fields untouched.
   */
  lemma LegacyObjectFromDatabase(c: Collaborators, rec: Record, opts: FilterOptions)
    requires !Truthy(c.versionOf(rec.modelVersion).major)
    ensures Decrypt !in FromDatabaseChain(c.versionOf(rec.modelVersion))
    ensures ConvertDatabaseToLiveObjects(c, Single(rec), opts)
              == Some(Single(Record(Some(LatestVersionString), rec.fields)))
  {
    FromDatabaseDecryptsFirst(c, rec, opts);
    ConversionStampsOutdated(c, rec, opts);
  }

  /**
   * Saving then loading gives back the object as the conversion steps left it:
   * every field other than `modelVersion` is restored, and the version is the
   * latest one.
   */
  lemma RoundTrip(c: Collaborators, rec: Record, opts: FilterOptions)
    requires RegistryConsistent(c) && DecryptUndoesEncrypt(c) && EncryptKeepsVersion(c)
    ensures FromDatabase(c, ToDatabase(c, rec, opts), opts) == Upgraded(c, rec)
    ensures FromDatabase(c, ToDatabase(c, rec, opts), opts).fields == rec.fields
    ensures IsLatestMajor(c.versionOf(FromDatabase(c, ToDatabase(c, rec, opts), opts).modelVersion))
  {
    var up := Upgraded(c, rec);
    ToDatabaseEncryptsLast(c, rec, opts);
    var saved := c.encrypt(up, opts);
    assert saved.modelVersion == up.modelVersion;
    assert IsLatestMajor(c.versionOf(up.modelVersion));
    FromDatabaseDecryptsFirst(c, saved, opts);
    ConversionStampsOutdated(c, c.decrypt(saved, opts), opts);
    assert c.decrypt(saved, opts) == up;
  }

  /** Saving an object that was saved and loaded again gives what the first save gave. */
  lemma ToDatabaseIdempotent(c: Collaborators, rec: Record, opts: FilterOptions)
    requires RegistryConsistent(c) && DecryptUndoesEncrypt(c) && EncryptKeepsVersion(c)
    ensures ToDatabase(c, FromDatabase(c, ToDatabase(c, rec, opts), opts), opts) == ToDatabase(c, rec, opts)
  {
    RoundTrip(c, rec, opts);
    var up := Upgraded(c, rec);
    assert IsLatestMajor(c.versionOf(up.modelVersion));
    ToDatabaseEncryptsLast(c, up, opts);
    ToDatabaseEncryptsLast(c, rec, opts);
  }

  /**
   * Objects in a batch do not influence each other: equal objects at any two
   * positions of any two batches of more than one object convert to equal
   * objects.
   */
  lemma BatchElementsIndependent(c: Collaborators, a: seq<Record>, b: seq<Record>, i: nat, j: nat,
                                 opts: FilterOptions, chainFor: ModelVersion -> seq<Filter>)
    requires |a| > 1 && |b| > 1 && i < |a| && j < |b| && a[i] == b[j]
    ensures FilterObjects(c, Many(a), opts, chainFor).Some?
    ensures FilterObjects(c, Many(b), opts, chainFor).Some?
    ensures FilterObjects(c, Many(a), opts, chainFor).value.recs[i]
              == FilterObjects(c, Many(b), opts, chainFor).value.recs[j]
  {
  }

  /** The legacy example: `{label: "Bye"}` without a version, loaded from the database. */
  lemma LegacyExample(c: Collaborators, opts: FilterOptions)
    requires c.versionOf(None).major == None
    ensures ConvertDatabaseToLiveObjects(c, Single(Record(None, map["label" := "Bye"])), opts)
              == Some(Single(Record(Some(LatestVersionString), map["label" := "Bye"])))
  {
    LegacyObjectFromDatabase(c, Record(None, map["label" := "Bye"]), opts);
  }
}
