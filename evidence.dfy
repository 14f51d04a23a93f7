/** useEvidence: the evidence page's view of one party: name and role with
    mock fallbacks, and the dispute's evidence URLs split into an image list
    and a video list, each numbered on its own. */
module Evidence {
  import opened Js
  import opened GetDispute

  datatype Role = Claimant | Defendant

  datatype Kind = Image | Video

  datatype EvidenceItem = EvidenceItem(id: string, kind: Kind, url: string, description: string, thumbnail: string)

  datatype PartyInfo = PartyInfo(name: string, role: string, avatar: string)

  const CLAIMANT_MOCK_NAME := "Julio Banegas"
  const DEFENDANT_MOCK_NAME := "Micaela Descotte"
  const VIDEO_SUFFIX := ".mp4"
  const VIDEO_THUMBNAIL := "/images/category-amount/evidencia-video.png"

  predicate IsVideo(url: string) {
    EndsWith(url, VIDEO_SUFFIX)
  }

  predicate IsImage(url: string) {
    !IsVideo(url)
  }

  function RoleLabel(role: Role): string {
    if role == Claimant then "Claimant" else "Defendant"
  }

  /** `partyInfo`: the party's address from the dispute, or the mock name
      when the dispute or the field is absent or empty. */
  function Party(dispute: Option<DisputeData>, role: Role): (r: PartyInfo)
    ensures r.role == (if role == Claimant then "Claimant" else "Defendant")
    ensures var field := if dispute.None? then "" else if role == Claimant then dispute.value.claimer else dispute.value.defender;
            r.name == if field != "" then field else if role == Claimant then CLAIMANT_MOCK_NAME else DEFENDANT_MOCK_NAME
    ensures r.name != ""
  {
    match role
    case Claimant =>
      PartyInfo(OrElse(if dispute.Some? then dispute.value.claimer else "", CLAIMANT_MOCK_NAME),
                "Claimant", "/images/profiles-mockup/profile-1.jpg")
    case Defendant =>
      PartyInfo(OrElse(if dispute.Some? then dispute.value.defender else "", DEFENDANT_MOCK_NAME),
                "Defendant", "/images/profiles-mockup/profile-2.png")
  }

  /** The audio statement's title. */
  function AudioTitle(role: Role): (r: string)
    ensures r == RoleLabel(role) + "'s Audio Statement"
  {
    Party(None, role).role + "'s Audio Statement"
  }

  /** `dispute?.evidence || []`. */
  function RawEvidence(dispute: Option<DisputeData>): (r: seq<string>)
    ensures dispute.None? ==> r == []
    ensures dispute.Some? ==> r == dispute.value.evidence
    // Every URL is listed once, as an image or as a video.
    ensures |ImageEvidence(r)| + |VideoEvidence(r)| == |r|
  {
    var raw := if dispute.Some? then dispute.value.evidence else [];
    EvidencePartition(raw, "");
    raw
  }

  /** `imageEvidence`: the non-.mp4 URLs, in order, as img-0, img-1, ... */
  function ImageEvidence(raw: seq<string>): (r: seq<EvidenceItem>)
    ensures |r| == |Filter(raw, IsImage)|
    ensures forall i :: 0 <= i < |r| ==>
              r[i] == EvidenceItem("img-" + DecimalString(i), Image, Filter(raw, IsImage)[i], "Evidence submitted", "")
  {
    var urls := Filter(raw, IsImage);
    seq(|urls|, i requires 0 <= i < |urls| => EvidenceItem("img-" + DecimalString(i), Image, urls[i], "Evidence submitted", ""))
  }

  /** `videoEvidence`: the .mp4 URLs, in order, as vid-0, vid-1, ... */
  function VideoEvidence(raw: seq<string>): (r: seq<EvidenceItem>)
    ensures |r| == |Filter(raw, IsVideo)|
    ensures forall i :: 0 <= i < |r| ==>
              r[i] == EvidenceItem("vid-" + DecimalString(i), Video, Filter(raw, IsVideo)[i], "Video Evidence", VIDEO_THUMBNAIL)
  {
    var urls := Filter(raw, IsVideo);
    seq(|urls|, i requires 0 <= i < |urls| => EvidenceItem("vid-" + DecimalString(i), Video, urls[i], "Video Evidence", VIDEO_THUMBNAIL))
  }

  function Urls(items: seq<EvidenceItem>): seq<string> {
    seq(|items|, i requires 0 <= i < |items| => items[i].url)
  }

  /** Every URL lands in exactly one of the two lists, according to its
      suffix, and together the lists hold as many entries as the evidence. */
  lemma EvidencePartition(raw: seq<string>, url: string)
    ensures url in raw ==> (url in Urls(VideoEvidence(raw)) <==> IsVideo(url))
    ensures url in raw ==> (url in Urls(ImageEvidence(raw)) <==> !IsVideo(url))
    ensures url in Urls(VideoEvidence(raw)) || url in Urls(ImageEvidence(raw)) ==> url in raw
    ensures |ImageEvidence(raw)| + |VideoEvidence(raw)| == |raw|
  {
    FilterKeeps(raw, IsImage, url);
    FilterKeeps(raw, IsVideo, url);
    assert Urls(VideoEvidence(raw)) == Filter(raw, IsVideo);
    assert Urls(ImageEvidence(raw)) == Filter(raw, IsImage);
    FilterPartition(raw, IsImage, IsVideo);
  }

  /** Each list keeps the relative order of its URLs: the i-th raw URL is
      the entry numbered by how many URLs of its kind precede it. */
  lemma EvidenceOrder(raw: seq<string>, i: nat)
    requires i < |raw|
    ensures IsVideo(raw[i]) ==>
              var k := |Filter(raw[..i], IsVideo)|;
              k < |VideoEvidence(raw)| && VideoEvidence(raw)[k].url == raw[i]
              && VideoEvidence(raw)[k].id == "vid-" + DecimalString(k)
    ensures IsImage(raw[i]) ==>
              var k := |Filter(raw[..i], IsImage)|;
              k < |ImageEvidence(raw)| && ImageEvidence(raw)[k].url == raw[i]
              && ImageEvidence(raw)[k].id == "img-" + DecimalString(k)
  {
    if IsVideo(raw[i]) {
      FilterAt(raw, IsVideo, i);
    } else {
      FilterAt(raw, IsImage, i);
    }
  }

  /** Without a dispute (or with no evidence) both lists are empty. */
  lemma NoEvidence()
    ensures ImageEvidence(RawEvidence(None)) == [] && VideoEvidence(RawEvidence(None)) == []
  {
  }
}
