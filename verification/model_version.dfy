/**
 * Model versions of persisted objects, as far as the filter pipeline looks at
 * them: the parsed `{major, minor, patch}` object and the application's latest
 * version (src/js/util/constants.js:4).
 */
module ModelVersions {
  import opened Wrappers

  /** A parsed model version; any component may be missing (JavaScript `undefined`). */
  datatype ModelVersion = ModelVersion(major: Option<int>, minor: Option<int>, patch: Option<int>)

  /** The latest model version, `{"major": 1, "minor": 0, "patch": 0}`. */
  const Latest: ModelVersion := ModelVersion(Some(1), Some(0), Some(0))

  /** The serialized latest version, written into `modelVersion` by the stamp step. */
  const LatestVersionString: string := "{\"major\": 1, \"minor\": 0, \"patch\": 0}"

  /**
   * JavaScript truthiness of a numeric `major` component: `undefined` and `0`
   * are falsy, every other number is truthy.
   */
  predicate Truthy(major: Option<int>) {
    major.Some? && major.value != 0
  }

  /** The major component is strictly equal to the latest major, a missing one included. */
  predicate IsLatestMajor(v: ModelVersion) {
    v.major == Latest.major
  }
}
