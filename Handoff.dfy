/** What the identity page hands to the verifier page: pasting the identity
    export and the proof bundle of the same identity into the verifier passes
    its checks exactly when the identity's id is non-empty. */
module Handoff {
  import opened Common
  import opened Json
  import opened Agent
  import opened Verifier

  /** The exported identity and its proof bundle are accepted exactly when
      the identity's id is non-empty (an empty id is rejected as missing),
      with the bundle's identity id and, when the proof is itself an object or
      array, that proof as the body; otherwise the whole bundle is the body. */
  lemma ExportedBundleVerifies(rec: IdentityRecord)
    requires WellFormedRecord(rec) && rec.lastProofBundle.Some?
    ensures var bundle := rec.lastProofBundle.value;
            var r := PrepareVerification(ExportPayload(Some(rec)), Some(BundleJson(bundle)));
            && (r.Ok? <==> rec.identityId != "")
            && (rec.identityId == "" ==> r == Err(IdentityIdMissing))
            && (r.Ok? ==> r.value.identityId == rec.identityId)
            && (r.Ok? && IsPayloadObject(bundle.proof) ==> r.value.proof == bundle.proof)
            && (r.Ok? && !IsPayloadObject(bundle.proof) ==> r.value.proof == BundleJson(bundle))
  {
    var bundle := rec.lastProofBundle.value;
    var exported := ExportPayload(Some(rec)).value;
    assert Truthy(exported) && TypeofObject(exported);
    if rec.identityId != "" {
      assert NonEmptyString(Get(BundleJson(bundle), "identityId")) == Some(rec.identityId);
    } else {
      assert NonEmptyString(Get(BundleJson(bundle), "identityId")).None?;
      assert NonEmptyString(Get(exported, "identityId")).None?;
    }
  }
}
