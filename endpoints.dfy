/**
 * The remote viewer's endpoints as the gallery builds them: upload and sync
 * URLs under the API base, the deep link shown after a bulk upload, the
 * request bodies, and the sentinel that announces the end of a debrief.
 */
module Endpoints {
  import opened Wrappers
  import opened Text

  const ApiPath: string := "/api/Vatsim/traineemanager/training/"
  /** The API base the trainee manager hands to the gallery. */
  const DefaultApiBase: string := "http://localhost:3000"
  /** The viewer link is built from this fixed prefix, not from the API base. */
  const ViewerPath: string := "http://localhost:3000/vatsim/traineemanager/training/"
  /** The `current_screenshot` value that signals that the debrief is over. */
  const EndSentinel: string := "DEBRIEFENDE"

  function UploadUrl(base: string, id: string): string
  {
    base + ApiPath + id + "/upload"
  }

  function SyncUrl(base: string, id: string): string
  {
    base + ApiPath + id + "/sync"
  }

  function TrainingLink(id: string): string
  {
    ViewerPath + id
  }

  /** A POST as the client sends it: its URL and its JSON body's string field. */
  datatype Request =
    | UploadRequest(url: string, filename: string)
    | SyncRequest(url: string, current: string)

  /** The request that ends a debrief: the sentinel posted as the current screenshot. */
  function EndSignal(base: string, id: string): Request
  {
    SyncRequest(SyncUrl(base, id), EndSentinel)
  }

  /** The training id inside an endpoint URL under `base` ending in `suffix`, if the URL has that shape. */
  function TrainingIdOf(base: string, url: string, suffix: string): (id: Option<string>)
    ensures id.Some? ==> base + ApiPath + id.value + suffix == url
  {
    var head := base + ApiPath;
    if |head| + |suffix| <= |url| && url[..|head|] == head && url[|url| - |suffix|..] == suffix then
      var id := url[|head|..|url| - |suffix|];
      assert url == url[..|head|] + id + url[|url| - |suffix|..];
      Some(id)
    else None
  }

  /** The upload URL of a training gives its id back. */
  lemma UploadUrlRoundTrip(base: string, id: string)
    ensures TrainingIdOf(base, UploadUrl(base, id), "/upload") == Some(id)
  {
    var url := UploadUrl(base, id);
    var head := base + ApiPath;
    assert url[..|head|] == head;
    assert url[|url| - 7..] == "/upload";
    assert url[|head|..|url| - 7] == id;
  }

  /** The sync URL of a training gives its id back. */
  lemma SyncUrlRoundTrip(base: string, id: string)
    ensures TrainingIdOf(base, SyncUrl(base, id), "/sync") == Some(id)
  {
    var url := SyncUrl(base, id);
    var head := base + ApiPath;
    assert url[..|head|] == head;
    assert url[|url| - 5..] == "/sync";
    assert url[|head|..|url| - 5] == id;
  }

  /** No upload URL is ever a sync URL, whatever the bases and ids. */
  lemma UploadIsNotSync(base: string, id: string, base': string, id': string)
    ensures UploadUrl(base, id) != SyncUrl(base', id')
  {
    var u, s := UploadUrl(base, id), SyncUrl(base', id');
    assert u[|u| - 1] == 'd';
    assert s[|s| - 1] == 'c';
  }

  /** The end sentinel is not the name of any `.png` file, so it cannot be mistaken for a screenshot. */
  lemma SentinelIsNoPng(name: string)
    requires EndsWith(name, ".png")
    ensures name != EndSentinel
  {
    assert EndSentinel[|EndSentinel| - 1] == 'E';
  }
}
