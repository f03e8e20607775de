/** The verifier page: the checks on the two pasted JSON texts, and how the
    identity id and the proof body of the verification request are chosen.
    A text that `JSON.parse` rejects is `None`. */
module Verifier {
  import opened Common
  import opened Json

  /** Why no verification request is sent, in the order the checks run. */
  datatype Rejection =
    | InvalidIdentityJson  // "Invalid identity JSON."
    | IdentityNotObject    // "Identity JSON must be an object."
    | InvalidProofJson     // "Invalid proof JSON."
    | ProofNotObject       // "Proof JSON must be an object."
    | IdentityIdMissing    // "identityId missing from payloads."

  /** The body of `POST /proof/verify`. */
  datatype VerifyRequest = VerifyRequest(identityId: string, proof: Json)

  /** `!v || typeof v !== "object"` fails: a truthy object or array. */
  predicate IsPayloadObject(v: Json)
  {
    Truthy(v) && TypeofObject(v)
  }

  /** `typeof v === "string" && v`: a non-empty string property. */
  function NonEmptyString(v: Option<Json>): (r: Option<string>)
    ensures r.Some? <==> v.Some? && v.value.JString? && v.value.s != ""
    ensures r.Some? ==> r.value == v.value.s
  {
    if v.Some? && v.value.JString? && v.value.s != "" then Some(v.value.s) else None
  }

  /** `derivedIdentityId`: the proof payload's `identityId` when it is a
      non-empty string, otherwise the identity payload's. */
  function DerivedIdentityId(identity: Json, proof: Json): (r: Option<string>)
    ensures r.Some? ==> r.value != ""
    ensures r.None? <==> NonEmptyString(Get(proof, "identityId")).None?
                         && NonEmptyString(Get(identity, "identityId")).None?
    ensures NonEmptyString(Get(proof, "identityId")).Some? ==> r == NonEmptyString(Get(proof, "identityId"))
    ensures NonEmptyString(Get(proof, "identityId")).None? ==> r == NonEmptyString(Get(identity, "identityId"))
  {
    var fromProof := NonEmptyString(Get(proof, "identityId"));
    if fromProof.Some? then fromProof else NonEmptyString(Get(identity, "identityId"))
  }

  /** `proofBody`: the payload's `proof` member when that is a truthy object
      or array, otherwise the whole payload. */
  function ProofBody(payload: Json): (r: Json)
    ensures var inner := Get(payload, "proof");
            && (inner.Some? && IsPayloadObject(inner.value) ==> r == inner.value)
            && (!(inner.Some? && IsPayloadObject(inner.value)) ==> r == payload)
  {
    var inner := Get(payload, "proof");
    if inner.Some? && IsPayloadObject(inner.value) then inner.value else payload
  }

  /** The click handler up to the fetch: the request it would send, or the
      first check that failed. */
  function PrepareVerification(identity: Option<Json>, proof: Option<Json>): (r: Result<VerifyRequest, Rejection>)
    ensures identity.None? ==> r == Err(InvalidIdentityJson)
    ensures identity.Some? && !IsPayloadObject(identity.value) ==> r == Err(IdentityNotObject)
    ensures identity.Some? && IsPayloadObject(identity.value) && proof.None? ==> r == Err(InvalidProofJson)
    ensures identity.Some? && IsPayloadObject(identity.value) && proof.Some? && !IsPayloadObject(proof.value)
            ==> r == Err(ProofNotObject)
    ensures r.Ok? <==> && identity.Some? && IsPayloadObject(identity.value)
                       && proof.Some? && IsPayloadObject(proof.value)
                       && DerivedIdentityId(identity.value, proof.value).Some?
    ensures r.Ok? ==> r.value == VerifyRequest(DerivedIdentityId(identity.value, proof.value).value,
                                               ProofBody(proof.value))
  {
    if identity.None? then Err(InvalidIdentityJson)
    else if !IsPayloadObject(identity.value) then Err(IdentityNotObject)
    else if proof.None? then Err(InvalidProofJson)
    else if !IsPayloadObject(proof.value) then Err(ProofNotObject)
    else
      var id := DerivedIdentityId(identity.value, proof.value);
      if id.None? then Err(IdentityIdMissing)
      else Ok(VerifyRequest(id.value, ProofBody(proof.value)))
  }

  /** A rejected identity text is reported whatever the proof text is: the
      proof is only looked at once the identity passed its checks. */
  lemma IdentityCheckedFirst(identity: Option<Json>, proof1: Option<Json>, proof2: Option<Json>)
    requires identity.None? || !IsPayloadObject(identity.value)
    ensures PrepareVerification(identity, proof1) == PrepareVerification(identity, proof2)
    ensures PrepareVerification(identity, proof1).Err?
  {
  }

  /** A request always carries a non-empty identity id, and the proof
      payload's own id wins over the identity payload's. */
  lemma ProofIdentityIdWins(identity: Json, proof: Json, id: string)
    requires IsPayloadObject(identity) && IsPayloadObject(proof)
    requires id != "" && Get(proof, "identityId") == Some(JString(id))
    ensures PrepareVerification(Some(identity), Some(proof)).Ok?
    ensures PrepareVerification(Some(identity), Some(proof)).value.identityId == id
  {
  }

  /** Without a usable id in the proof, the identity payload's is used, and
      without either nothing is sent. */
  lemma IdentityIdFallback(identity: Json, proof: Json)
    requires IsPayloadObject(identity) && IsPayloadObject(proof)
    requires NonEmptyString(Get(proof, "identityId")).None?
    ensures var r := PrepareVerification(Some(identity), Some(proof));
            && (r.Ok? <==> NonEmptyString(Get(identity, "identityId")).Some?)
            && (r.Ok? ==> r.value.identityId == NonEmptyString(Get(identity, "identityId")).value)
            && (r.Err? ==> r.error == IdentityIdMissing)
  {
  }

  /** Unwrapping is one level deep: a payload holding `{proof: p}` sends `p`,
      and the wrapper is never sent on its own when `p` is an object, even
      an empty one (an empty object is truthy). */
  lemma ProofUnwrapped(proof: Json, inner: map<string, Json>)
    requires proof.JObject? && "proof" in proof.fields && proof.fields["proof"] == JObject(inner)
    ensures ProofBody(proof) == JObject(inner)
  {
  }
}
