/** The identity demo page: a list of identities held in the browser, the
    active one among them, and the handlers that create an identity, save
    its attributes, generate a proof for it and export it. Server replies
    are parameters of the handlers. */
module Agent {
  import opened Common
  import opened Json
  import opened Dates
  import opened Validation

  /** The proof template every proof request names. */
  const TemplateId: string := "age_over_18_and_resident_pt"

  /** The saved attributes of an identity; both are null until saved. */
  datatype Attributes = Attributes(birthdate: Option<string>, country: Option<string>)

  /** A generated proof together with the identity it was generated for. */
  datatype ProofBundle = ProofBundle(identityId: string, proof: Json)

  /** One identity as the page keeps it. */
  datatype IdentityRecord = IdentityRecord(
    identityId: string,
    commitment: Option<string>,
    attributesRoot: Option<string>,
    attributes: Attributes,
    lastProofBundle: Option<ProofBundle>)

  /** The index of the first identity whose id is `id` (`identities.find`);
      a null id matches none. */
  function FindIdentity(ids: seq<IdentityRecord>, id: Option<string>): (r: Option<nat>)
    ensures r.None? <==> id.None? || forall k :: 0 <= k < |ids| ==> ids[k].identityId != id.value
    ensures r.Some? ==> r.value < |ids| && ids[r.value].identityId == id.value
    ensures r.Some? ==> forall k :: 0 <= k < r.value ==> ids[k].identityId != id.value
  {
    if id.None? || ids == [] then None
    else if ids[0].identityId == id.value then Some(0)
    else
      var rest := FindIdentity(ids[1..], id);
      if rest.None? then None else Some(rest.value + 1)
  }

  /** A truthy id: present and not the empty string. */
  predicate IsSet(id: Option<string>)
  {
    id.Some? && id.value != ""
  }

  /** The first identity's id, or null when there is none. */
  function FirstId(ids: seq<IdentityRecord>): (r: Option<string>)
    ensures r.None? <==> ids == []
    ensures r.Some? ==> r.value == ids[0].identityId
  {
    if ids == [] then None else Some(ids[0].identityId)
  }

  /** The page's invariant on the active id: there is one exactly when there
      are identities, and it names one of them. */
  predicate ActiveConsistent(ids: seq<IdentityRecord>, active: Option<string>)
  {
    (active.None? <==> ids == []) && (active.Some? ==> FindIdentity(ids, active).Some?)
  }

  /** The active id after `ensureActiveIdentity`, and after
      `setActiveIdentity(id)` with `active` = `id` (both run the same test):
      kept when it is set and names an identity, otherwise the first
      identity's. */
  function Ensured(ids: seq<IdentityRecord>, active: Option<string>): (r: Option<string>)
    ensures ActiveConsistent(ids, r)
    ensures IsSet(active) && FindIdentity(ids, active).Some? ==> r == active
  {
    if IsSet(active) && FindIdentity(ids, active).Some? then active else FirstId(ids)
  }

  /** Ensuring twice is ensuring once; in particular the `ensureActiveIdentity`
      that `refreshUI` runs after every selection never changes what the
      selection chose. */
  lemma EnsureIdempotent(ids: seq<IdentityRecord>, active: Option<string>)
    ensures Ensured(ids, Ensured(ids, active)) == Ensured(ids, active)
  {
  }

  /** An already consistent, set active id is left alone. */
  lemma EnsureKeepsConsistent(ids: seq<IdentityRecord>, active: Option<string>)
    requires ActiveConsistent(ids, active) && IsSet(active)
    ensures Ensured(ids, active) == active
  {
  }

  /** Attributes are either both unsaved or both values the validators accepted. */
  predicate WellFormedAttributes(a: Attributes)
  {
    (a.birthdate.None? && a.country.None?)
    || (a.birthdate.Some? && MatchesDatePattern(a.birthdate.value)
        && a.country.Some? && IsCountryCode(a.country.value))
  }

  /** A record's proof bundle, when it has one, is for that record. */
  predicate WellFormedRecord(r: IdentityRecord)
  {
    WellFormedAttributes(r.attributes)
    && (r.lastProofBundle.Some? ==> r.lastProofBundle.value.identityId == r.identityId)
  }

  /** The text a failed request shows: the server's `error` when it is a
      non-empty string, otherwise the fallback. */
  function ErrorText(error: Option<string>, fallback: string): (r: string)
    ensures IsSet(error) ==> r == error.value
    ensures !IsSet(error) ==> r == fallback
  {
    if IsSet(error) then error.value else fallback
  }

  /** The reply to `POST /identity`. */
  datatype CreateReply =
    | Created(identityId: string, commitment: Option<string>, attributesRoot: Option<string>)
    | CreateRefused(error: Option<string>)
    | CreateUnreachable(message: string)

  /** The reply to `POST /attributes`. */
  datatype SaveReply =
    | Saved(commitment: Option<string>, attributesRoot: Option<string>)
    | SaveRefused(error: Option<string>)
    | SaveUnreachable

  /** The reply to `POST /proof`; a proof is any JSON the server sends back. */
  datatype ProofReply =
    | ProofIssued(data: Json)
    | ProofRefused(error: Option<string>)
    | ProofUnreachable(message: string)

  /** The body of `POST /attributes`. */
  datatype AttributesRequest = AttributesRequest(identityId: string, birthdate: string, country: string)

  /** The body of `POST /proof`. */
  datatype ProofRequest = ProofRequest(templateId: string, identityId: string, commitment: Option<string>)

  const NoIdentityText: string := "Create or select an identity first."

  /** The record a successful create appends. */
  function NewRecord(reply: CreateReply): (r: IdentityRecord)
    requires reply.Created?
    ensures WellFormedRecord(r)
    ensures r.identityId == reply.identityId && r.commitment == reply.commitment
    ensures r.attributesRoot == reply.attributesRoot
    ensures r.attributes == Attributes(None, None) && r.lastProofBundle.None?
  {
    IdentityRecord(reply.identityId, reply.commitment, reply.attributesRoot, Attributes(None, None), None)
  }

  /** The record after a successful save: the new attributes, the server's
      commitment and root where it sent them (`??` keeps the old ones), and
      no proof bundle. */
  function SavedRecord(rec: IdentityRecord, birthdate: string, country: string,
                       commitment: Option<string>, attributesRoot: Option<string>): (r: IdentityRecord)
    ensures r.identityId == rec.identityId
    ensures r.commitment == (if commitment.Some? then commitment else rec.commitment)
    ensures r.attributesRoot == (if attributesRoot.Some? then attributesRoot else rec.attributesRoot)
    ensures r.attributes == Attributes(Some(birthdate), Some(country))
    ensures r.lastProofBundle.None?
  {
    IdentityRecord(rec.identityId,
                   if commitment.Some? then commitment else rec.commitment,
                   if attributesRoot.Some? then attributesRoot else rec.attributesRoot,
                   Attributes(Some(birthdate), Some(country)),
                   None)
  }

  /** `getIdentityExportPayload`: exactly the id, the commitment and the
      attributes root of the identity, or null without one. */
  function ExportPayload(rec: Option<IdentityRecord>): (r: Option<Json>)
    ensures r.None? <==> rec.None?
    ensures r.Some? ==> r.value.JObject?
                        && r.value.fields.Keys == {"identityId", "commitment", "attributesRoot"}
                        && r.value.fields["identityId"] == JString(rec.value.identityId)
                        && r.value.fields["commitment"] == OptionalString(rec.value.commitment)
                        && r.value.fields["attributesRoot"] == OptionalString(rec.value.attributesRoot)
  {
    match rec
    case None => None
    case Some(i) =>
      Some(JObject(map["identityId" := JString(i.identityId),
                       "commitment" := OptionalString(i.commitment),
                       "attributesRoot" := OptionalString(i.attributesRoot)]))
  }

  /** A proof bundle as it is copied or downloaded. */
  function BundleJson(b: ProofBundle): (r: Json)
    ensures Get(r, "identityId") == Some(JString(b.identityId))
    ensures Get(r, "proof") == Some(b.proof)
  {
    JObject(map["identityId" := JString(b.identityId), "proof" := b.proof])
  }

  /** The page's identity state: the `identities` array and `activeIdentityId`. */
  class IdentityState {
    var identities: seq<IdentityRecord>
    var activeId: Option<string>

    /** Every record is well formed. */
    ghost predicate RecordsWellFormed()
      reads this
    {
      forall k :: 0 <= k < |identities| ==> WellFormedRecord(identities[k])
    }

    ghost predicate Valid()
      reads this
    {
      ActiveConsistent(identities, activeId) && RecordsWellFormed()
    }

    /** The page as loaded: no identities, no active one. */
    constructor()
      ensures Valid()
      ensures identities == [] && activeId == None
    {
      identities := [];
      activeId := None;
    }

    /** `getActiveIdentity`: the index of the active record, if any. */
    function ActiveIndex(): (r: Option<nat>)
      reads this
      ensures r.Some? ==> r.value < |identities| && activeId.Some?
                          && identities[r.value].identityId == activeId.value
    {
      FindIdentity(identities, activeId)
    }

    /** `ensureActiveIdentity`. */
    method EnsureActiveIdentity()
      modifies this`activeId
      ensures activeId == Ensured(identities, old(activeId))
      ensures IsSet(old(activeId)) && FindIdentity(identities, old(activeId)).Some? ==> activeId == old(activeId)
      ensures RecordsWellFormed() ==> Valid()
    {
      if IsSet(activeId) && FindIdentity(identities, activeId).Some? {
        return;
      }
      activeId := if identities == [] then None else Some(identities[0].identityId);
    }

    /** `setActiveIdentity(id)`, followed by the `ensureActiveIdentity` of
      `refreshUI`. */
    method SetActiveIdentity(id: Option<string>)
      modifies this`activeId
      requires RecordsWellFormed()
      ensures Valid()
      ensures activeId == Ensured(identities, id)
      ensures IsSet(id) && FindIdentity(identities, id).Some? ==> activeId == id
      ensures !(IsSet(id) && FindIdentity(identities, id).Some?) ==> activeId == FirstId(identities)
    {
      if IsSet(id) && FindIdentity(identities, id).Some? {
        activeId := id;
      } else {
        activeId := if identities == [] then None else Some(identities[0].identityId);
      }
      EnsureIdempotent(identities, id);
      EnsureActiveIdentity();
    }

    /** `createIdentityRecord` with the server's reply: on success one new
      record is appended and selected; otherwise nothing changes and the
      error text is shown. */
    method CreateIdentity(reply: CreateReply) returns (status: string)
      modifies this
      requires Valid()
      ensures Valid()
      ensures !reply.Created? ==> identities == old(identities) && activeId == old(activeId)
      ensures reply.CreateRefused? ==> status == ErrorText(reply.error, "Unable to create identity.")
      ensures reply.CreateUnreachable? ==> status == reply.message
      ensures reply.Created? ==> && identities == old(identities) + [NewRecord(reply)]
                                 && activeId == Ensured(identities, Some(reply.identityId))
                                 && status == "Identity created: " + reply.identityId
    {
      match reply
      case CreateRefused(error) =>
        status := ErrorText(error, "Unable to create identity.");
      case CreateUnreachable(message) =>
        status := message;
      case Created(id, _, _) =>
        identities := identities + [NewRecord(reply)];
        SetActiveIdentity(Some(id));
        status := "Identity created: " + id;
    }

    /** The save-attributes handler. It needs an active identity, then a valid
      birthdate, then a valid country; it writes the accepted values back
      into the two inputs, sends them, and updates the record if the server
      accepts. The returned inputs are the form's field values afterwards. */
    method SaveAttributes(birthInput: string, countryInput: string, today: Utc, reply: SaveReply)
      returns (status: string, sent: Option<AttributesRequest>, birthField: string, countryField: string)
      modifies this`identities
      requires Valid()
      ensures Valid()
      ensures old(ActiveIndex()).None? ==>
                && status == NoIdentityText && sent.None?
                && identities == old(identities)
                && birthField == birthInput && countryField == countryInput
      ensures old(ActiveIndex()).Some? ==>
                var i := old(ActiveIndex()).value;
                var rec := old(identities)[i];
                var b := ValidateBirthdate(birthInput, today);
                var c := ValidateCountry(countryInput);
                && (b.Err? ==> status == BirthdateMessage(b.error) && sent.None?
                               && identities == old(identities)
                               && birthField == birthInput && countryField == countryInput)
                && (b.Ok? && c.Err? ==> status == CountryMessage(c.error) && sent.None?
                                        && identities == old(identities)
                                        && birthField == birthInput && countryField == countryInput)
                && (b.Ok? && c.Ok? ==>
                      && sent == Some(AttributesRequest(rec.identityId, b.value, c.value))
                      && birthField == b.value && countryField == c.value
                      && (reply.Saved? ==>
                            && identities == old(identities)[i := SavedRecord(rec, b.value, c.value,
                                                                              reply.commitment, reply.attributesRoot)]
                            && status == "Attributes saved & commitment updated.")
                      && (reply.SaveRefused? ==>
                            && identities == old(identities)
                            && status == "Error: " + ErrorText(reply.error, "unknown"))
                      && (reply.SaveUnreachable? ==>
                            && identities == old(identities)
                            && status == "Network error."))
    {
      birthField, countryField := birthInput, countryInput;
      sent := None;
      var active := ActiveIndex();
      if active.None? {
        status := NoIdentityText;
        return;
      }
      var i := active.value;
      var rec := identities[i];
      var birth := ValidateBirthdate(birthInput, today);
      if birth.Err? {
        status := BirthdateMessage(birth.error);
        return;
      }
      var country := ValidateCountry(countryInput);
      if country.Err? {
        status := CountryMessage(country.error);
        return;
      }
      birthField, countryField := birth.value, country.value;
      sent := Some(AttributesRequest(rec.identityId, birth.value, country.value));
      match reply
      case SaveRefused(error) =>
        status := "Error: " + ErrorText(error, "unknown");
      case SaveUnreachable =>
        status := "Network error.";
      case Saved(commitment, root) =>
        var saved := SavedRecord(rec, birth.value, country.value, commitment, root);
        assert WellFormedRecord(saved) by {
          assert MatchesDatePattern(birth.value) && IsCountryCode(country.value);
        }
        identities := identities[i := saved];
        status := "Attributes saved & commitment updated.";
        assert FindIdentity(identities, activeId).Some? by {
          assert identities[i].identityId == rec.identityId;
        }
    }

    /** The generate-proof handler: it needs an active identity, asks for a
      proof for its id and commitment, and keeps what the server returns as
      the identity's proof bundle. */
    method GenerateProof(reply: ProofReply) returns (status: string, sent: Option<ProofRequest>)
      modifies this`identities
      requires Valid()
      ensures Valid()
      ensures old(ActiveIndex()).None? ==>
                status == NoIdentityText && sent.None? && identities == old(identities)
      ensures old(ActiveIndex()).Some? ==>
                var i := old(ActiveIndex()).value;
                var rec := old(identities)[i];
                && sent == Some(ProofRequest(TemplateId, rec.identityId, rec.commitment))
                && (reply.ProofIssued? ==>
                      && identities == old(identities)[i := rec.(lastProofBundle := Some(ProofBundle(rec.identityId, reply.data)))]
                      && status == "Proof generated.")
                && (reply.ProofRefused? ==>
                      identities == old(identities) && status == ErrorText(reply.error, "Unable to generate proof."))
                && (reply.ProofUnreachable? ==>
                      identities == old(identities) && status == reply.message)
    {
      sent := None;
      var active := ActiveIndex();
      if active.None? {
        status := NoIdentityText;
        return;
      }
      var i := active.value;
      var rec := identities[i];
      sent := Some(ProofRequest(TemplateId, rec.identityId, rec.commitment));
      match reply
      case ProofRefused(error) =>
        status := ErrorText(error, "Unable to generate proof.");
      case ProofUnreachable(message) =>
        status := message;
      case ProofIssued(data) =>
        identities := identities[i := rec.(lastProofBundle := Some(ProofBundle(rec.identityId, data)))];
        status := "Proof generated.";
        assert FindIdentity(identities, activeId).Some? by {
          assert identities[i].identityId == rec.identityId;
        }
    }
  }

  /** A fresh, non-empty id that the server returns becomes the active
      identity, and the new record is the active one. */
  lemma CreatedRecordBecomesActive(ids: seq<IdentityRecord>, reply: CreateReply)
    requires reply.Created? && reply.identityId != ""
    requires forall k :: 0 <= k < |ids| ==> ids[k].identityId != reply.identityId
    ensures var after := ids + [NewRecord(reply)];
            && Ensured(after, Some(reply.identityId)) == Some(reply.identityId)
            && FindIdentity(after, Some(reply.identityId)) == Some(|ids|)
  {
    var after := ids + [NewRecord(reply)];
    assert after[|ids|].identityId == reply.identityId;
  }

  /** An id the server hands out twice selects the older record: the new one
      is appended but `find` stops at the first match. */
  lemma DuplicateIdSelectsOlderRecord(ids: seq<IdentityRecord>, reply: CreateReply, k: nat)
    requires reply.Created? && reply.identityId != ""
    requires k < |ids| && ids[k].identityId == reply.identityId
    ensures var r := FindIdentity(ids + [NewRecord(reply)], Some(reply.identityId));
            r.Some? && r.value <= k
  {
    assert (ids + [NewRecord(reply)])[k] == ids[k];
  }
}
