/** Provenance references shared by the semantic and coordination layers. */
module Models {
  import opened Wrappers

  datatype LineageRef = LineageRef(sourceId: string, assetId: string, recordId: Option<string>, fieldPath: Option<string>)
}
