/**
 * Publishing a finished job's stems: one upload per stem, in a fixed order,
 * under a key namespaced by the job id, each followed by the public URL the
 * client will download from.
 */
module Publisher {
  import opened Wrappers
  import opened Paths

  /** The four stems the engine writes, in the order they are uploaded. */
  const Stems: seq<string> := ["vocals", "drums", "bass", "other"]
  /**
   * The same four names as a set: the key set of a finished job's download
   * map, which the record invariant compares against. StemNamesListed shows
   * it holds exactly the elements of Stems.
   */
  const StemNames: set<string> := {"vocals", "drums", "bass", "other"}
  const WavContentType: string := "audio/wav"
  /** What Python raises when the public base URL is not configured and `rstrip` is called on None. */
  const NoPublicBaseMessage: string := "'NoneType' object has no attribute 'rstrip'"

  /** The outcome of one call to the object store's upload. */
  datatype UploadOutcome = Uploaded | UploadFailed(message: string)

  /** One upload request: the local stem file, the object key and the content type. */
  datatype Upload = Upload(path: string, key: string, contentType: string)

  /** The first stem whose publication failed, and what was raised. */
  datatype Failure = Failure(index: nat, message: string)

  /** The object key of one stem of one job: `stems/<jid>/<stem>.wav`. */
  function ObjectKey(jid: string, stem: string): string {
    "stems/" + jid + "/" + stem + ".wav"
  }

  /** Splits an object key back into job id and stem; the stem is what follows the last separator. */
  function ParseKey(key: string): (r: Option<(string, string)>)
    ensures r.Some? ==> '/' !in r.value.1 && key == ObjectKey(r.value.0, r.value.1)
  {
    if |key| >= 11 && key[..6] == "stems/" && key[|key| - 4..] == ".wav" then
      var mid := key[6..|key| - 4];
      var i := RFind(mid, '/');
      if i < 0 then None
      else
        assert mid == mid[..i] + "/" + mid[i + 1..];
        assert key == key[..6] + mid + key[|key| - 4..];
        Some((mid[..i], mid[i + 1..]))
    else None
  }

  /** A key built from a job id and a stem name without separators parses back to both. */
  lemma {:induction false} ParseObjectKey(jid: string, stem: string)
    requires '/' !in stem
    ensures ParseKey(ObjectKey(jid, stem)) == Some((jid, stem))
  {
    var key := ObjectKey(jid, stem);
    var mid := jid + "/" + stem;
    assert key[..6] == "stems/" && key[|key| - 4..] == ".wav";
    assert key[6..|key| - 4] == mid;
    assert mid[|jid|] == '/' && mid[|jid| + 1..] == stem && mid[..|jid|] == jid;
    assert |key| >= 11;
    var i := RFind(mid, '/');
    assert key[6..|key| - 4][..i] == mid[..i];
    assert i == |jid|;
  }

  /** `rstrip(base, '/') + "/" + key`: the public URL of an object. */
  function PublicUrl(base: string, key: string): string
  {
    RStrip(base, '/') + "/" + key
  }

  /** The URL map the publication loop holds after the first `n` stems. */
  function Collected(jid: string, base: string, n: nat): map<string, string>
    requires n <= |Stems|
  {
    if n == 0 then map[]
    else Collected(jid, base, n - 1)[Stems[n - 1] := PublicUrl(base, ObjectKey(jid, Stems[n - 1]))]
  }

  /** The set of stem names holds exactly the stems of the upload order. */
  lemma StemNamesListed()
    ensures StemNames == set j | 0 <= j < |Stems| :: Stems[j]
  {
    assert Stems[0] == "vocals" && Stems[1] == "drums" && Stems[2] == "bass" && Stems[3] == "other";
  }

  /** The public URLs of a finished job: the map after all four stems. */
  function Downloads(jid: string, base: string): (d: map<string, string>)
    ensures d.Keys == StemNames
  {
    CollectedByStem(jid, base, |Stems|);
    StemNamesListed();
    Collected(jid, base, |Stems|)
  }

  /** The map after `n` stems holds exactly those stems, each mapped to the public URL of its object. */
  lemma {:induction false} CollectedByStem(jid: string, base: string, n: nat)
    requires n <= |Stems|
    ensures Collected(jid, base, n).Keys == set j | 0 <= j < n :: Stems[j]
    ensures forall s :: s in Collected(jid, base, n) ==> Collected(jid, base, n)[s] == PublicUrl(base, ObjectKey(jid, s))
  {
    if n > 0 {
      CollectedByStem(jid, base, n - 1);
      assert (set j | 0 <= j < n :: Stems[j]) == (set j | 0 <= j < n - 1 :: Stems[j]) + {Stems[n - 1]};
    }
  }

  /** Each entry of a finished job's downloads holds the public URL of that stem's object. */
  lemma DownloadsByStem(jid: string, base: string)
    ensures forall s :: s in Downloads(jid, base) ==> Downloads(jid, base)[s] == PublicUrl(base, ObjectKey(jid, s))
  {
    CollectedByStem(jid, base, |Stems|);
  }

  /** A download URL names exactly one job and one stem: two jobs never share a URL. */
  lemma DownloadsIdentifyJob(jid1: string, jid2: string, base: string, s1: string, s2: string)
    requires s1 in StemNames && s2 in StemNames
    requires Downloads(jid1, base)[s1] == Downloads(jid2, base)[s2]
    ensures jid1 == jid2 && s1 == s2
  {
    DownloadsByStem(jid1, base);
    DownloadsByStem(jid2, base);
    var k1, k2 := ObjectKey(jid1, s1), ObjectKey(jid2, s2);
    var n := |RStrip(base, '/')| + 1;
    assert PublicUrl(base, k1)[n..] == k1 && PublicUrl(base, k2)[n..] == k2;
    ParseObjectKey(jid1, s1);
    ParseObjectKey(jid2, s2);
  }

  /** The upload request for one stem of a job whose stems lie in `stemsDir`. */
  function Request(jid: string, stemsDir: string, stem: string): Upload {
    Upload(Join(stemsDir, stem + ".wav"), ObjectKey(jid, stem), WavContentType)
  }

  /** The upload requests for the first `n` stems, in publication order. */
  function Requests(jid: string, stemsDir: string, n: nat): seq<Upload>
    requires n <= |Stems|
  {
    if n == 0 then [] else Requests(jid, stemsDir, n - 1) + [Request(jid, stemsDir, Stems[n - 1])]
  }

  /** There is one request per stem so far, and the `j`th request is the one for the `j`th stem. */
  lemma {:induction false} RequestsInOrder(jid: string, stemsDir: string, n: nat)
    requires n <= |Stems|
    ensures |Requests(jid, stemsDir, n)| == n
    ensures forall j :: 0 <= j < n ==> Requests(jid, stemsDir, n)[j] == Request(jid, stemsDir, Stems[j])
  {
    if n > 0 {
      RequestsInOrder(jid, stemsDir, n - 1);
    }
  }

  /** The requests for fewer stems are a prefix of the requests for more. */
  lemma RequestsPrefix(jid: string, stemsDir: string, m: nat, n: nat)
    requires m <= n <= |Stems|
    ensures |Requests(jid, stemsDir, n)| == n && Requests(jid, stemsDir, m) == Requests(jid, stemsDir, n)[..m]
  {
    RequestsInOrder(jid, stemsDir, m);
    RequestsInOrder(jid, stemsDir, n);
  }

  /**
   * What publishing one stem raises, if anything: the upload's own failure,
   * or else, after a successful upload, the error of building the URL from
   * a missing public base.
   */
  function StepFailure(base: Option<string>, outcome: UploadOutcome): Option<string> {
    if outcome.UploadFailed? then Some(outcome.message)
    else if base.None? then Some(NoPublicBaseMessage)
    else None
  }

  /** The first step at or after `from` that raises. */
  function FirstFailure(base: Option<string>, outcomes: seq<UploadOutcome>, from: nat): (f: Option<Failure>)
    requires from <= |outcomes|
    ensures f.Some? ==> from <= f.value.index < |outcomes|
    ensures f.Some? ==> StepFailure(base, outcomes[f.value.index]) == Some(f.value.message)
    ensures forall j :: from <= j < (if f.Some? then f.value.index else |outcomes|) ==>
      StepFailure(base, outcomes[j]) == None
    decreases |outcomes| - from
  {
    if from == |outcomes| then None
    else match StepFailure(base, outcomes[from])
      case Some(m) => Some(Failure(from, m))
      case None => FirstFailure(base, outcomes, from + 1)
  }

  /**
   * The result of publishing all stems: the download map when every upload
   * succeeded and the public base is set, otherwise what the first failing
   * step raised.
   */
  function Publish(jid: string, base: Option<string>, outcomes: seq<UploadOutcome>): (r: Result<map<string, string>, string>)
    requires |outcomes| == |Stems|
    ensures r.Ok? <==> base.Some? && forall i :: 0 <= i < |outcomes| ==> outcomes[i] == Uploaded
    ensures r.Ok? ==> r.value == Downloads(jid, base.value)
    ensures r.Err? ==>
      exists i :: 0 <= i < |outcomes| && (forall j :: 0 <= j < i ==> StepFailure(base, outcomes[j]) == None) &&
                  StepFailure(base, outcomes[i]) == Some(r.error)
  {
    match FirstFailure(base, outcomes, 0)
    case None =>
      assert StepFailure(base, outcomes[0]) == None;
      Ok(Downloads(jid, base.value))
    case Some(f) =>
      assert forall j :: 0 <= j < f.index ==> StepFailure(base, outcomes[j]) == None;
      Err(f.message)
  }

  /**
   * Without a public base, publishing stops at the first stem: with that
   * upload's own error, or else, once the upload went through, with the
   * error of calling `rstrip` on the missing base.
   */
  lemma PublishWithoutBase(jid: string, outcomes: seq<UploadOutcome>)
    requires |outcomes| == |Stems|
    ensures Publish(jid, None, outcomes) ==
      Err(if outcomes[0].UploadFailed? then outcomes[0].message else NoPublicBaseMessage)
  {
    assert StepFailure(None, outcomes[0]).Some?;
    assert FirstFailure(None, outcomes, 0) == Some(Failure(0, StepFailure(None, outcomes[0]).value));
  }

  /**
   * The uploads attempted: the requests in publication order up to and
   * including the first failing step, or all four.
   */
  function Attempted(jid: string, stemsDir: string, base: Option<string>, outcomes: seq<UploadOutcome>): seq<Upload>
    requires |outcomes| == |Stems|
  {
    match FirstFailure(base, outcomes, 0)
    case None => Requests(jid, stemsDir, |Stems|)
    case Some(f) => Requests(jid, stemsDir, f.index + 1)
  }

  /**
   * The uploads attempted are a non-empty prefix of the four requests; every
   * step before the last went through, a shorter prefix ends in the step
   * that raised, and all four go through exactly when publishing succeeds.
   */
  lemma AttemptedSteps(jid: string, stemsDir: string, base: Option<string>, outcomes: seq<UploadOutcome>)
    requires |outcomes| == |Stems|
    ensures var a := Attempted(jid, stemsDir, base, outcomes);
      && 1 <= |a| <= |Stems| && |Requests(jid, stemsDir, |Stems|)| == |Stems|
      && a == Requests(jid, stemsDir, |Stems|)[..|a|]
      && (forall j :: 0 <= j < |a| - 1 ==> StepFailure(base, outcomes[j]) == None)
      && (|a| < |Stems| ==> StepFailure(base, outcomes[|a| - 1]).Some?)
      && ((|a| == |Stems| && StepFailure(base, outcomes[|a| - 1]) == None) <==> Publish(jid, base, outcomes).Ok?)
  {
    match FirstFailure(base, outcomes, 0)
    case None =>
      RequestsPrefix(jid, stemsDir, |Stems|, |Stems|);
    case Some(f) =>
      RequestsInOrder(jid, stemsDir, f.index + 1);
      RequestsPrefix(jid, stemsDir, f.index + 1, |Stems|);
  }

  /**
   * Uploads the stems in order, collecting each one's URL in a local map,
   * and stops at the first step that raises; the map is handed back only
   * when all four steps succeeded.
   */
  method PublishStems(jid: string, stemsDir: string, base: Option<string>, outcomes: seq<UploadOutcome>)
    returns (result: Result<map<string, string>, string>, attempted: seq<Upload>)
    requires |outcomes| == |Stems|
    ensures result == Publish(jid, base, outcomes)
    ensures attempted == Attempted(jid, stemsDir, base, outcomes)
  {
    var downloads: map<string, string> := map[];
    attempted := [];
    var i := 0;
    while i < |Stems|
      invariant 0 <= i <= |Stems|
      invariant attempted == Requests(jid, stemsDir, i)
      invariant FirstFailure(base, outcomes, i) == FirstFailure(base, outcomes, 0)
      invariant base.Some? || i == 0
      invariant base.Some? ==> downloads == Collected(jid, base.value, i)
    {
      var stem := Stems[i];
      var key := ObjectKey(jid, stem);
      attempted := attempted + [Upload(Join(stemsDir, stem + ".wav"), key, WavContentType)];
      match outcomes[i]
      case UploadFailed(m) =>
        return Err(m), attempted;
      case Uploaded =>
        if base.None? {
          return Err(NoPublicBaseMessage), attempted;
        }
        downloads := downloads[stem := PublicUrl(base.value, key)];
      i := i + 1;
    }
    result := Ok(downloads);
  }
}
