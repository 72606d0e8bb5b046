/** Browser entities shared by observation, selection, executor and controller. */
module Models {
  import opened Wrappers

  datatype ActionKind = Click | TypeText | Navigate | Scroll | Wait | RequestText | RequestReview

  datatype ReviewKind =
    | LoginSubmit
    | FileTransfer
    | Payment
    | Destructive
    | PublicPosting
    | MessageSubmit
    | PermissionGrant
    | Captcha

  /** Page-derived identity of one element. */
  datatype Fingerprint = Fingerprint(
    id: string, tag: string, role: Option<string>, textLength: nat, attributesHash: string)

  /** The length limits that the fingerprint model enforces. */
  predicate ValidFingerprint(f: Fingerprint) {
    1 <= |f.tag| <= 32 && (f.role.Some? ==> |f.role.value| <= 64) && f.textLength <= 1_000_000
  }

  datatype Candidate = Candidate(
    id: string, kind: ActionKind, fingerprint: Fingerprint, description: string, review: Option<ReviewKind>)

  predicate DistinctIds(cs: seq<Candidate>) {
    forall i, j :: 0 <= i < j < |cs| ==> cs[i].id != cs[j].id
  }

  predicate HasId(cs: seq<Candidate>, id: string) {
    exists c :: c in cs && c.id == id
  }

  function FirstWithId(batch: seq<Candidate>, id: string): Option<Candidate> {
    if batch == [] then None
    else if batch[0].id == id then Some(batch[0])
    else FirstWithId(batch[1..], id)
  }

  lemma {:induction false} FoundById(batch: seq<Candidate>, id: string)
    ensures
      match FirstWithId(batch, id)
      case Some(c) => c in batch && c.id == id
      case None => !HasId(batch, id)
  {
    if batch != [] {
      FoundById(batch[1..], id);
      assert batch == [batch[0]] + batch[1..];
    }
  }

  /** With distinct ids, looking a candidate up by its id finds that candidate. */
  lemma FoundIsUnique(cs: seq<Candidate>, c: Candidate)
    requires DistinctIds(cs) && c in cs
    ensures FirstWithId(cs, c.id) == Some(c)
  {
    FoundById(cs, c.id);
    assert HasId(cs, c.id);
  }
}
