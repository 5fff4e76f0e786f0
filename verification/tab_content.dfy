/** The per-tab logic of components/TabContent.tsx: the three record edits a
    tab hands to its store (`rotateIP`, `addVideo`, `removeVideo`) and the
    component's own state (advice text, rotation flag, traffic window). */
module TabContent {
  import opened Types
  import Text
  import Lists
  import Identity
  import Gateway

  const AdvicePlaceholder := "Analyzing network environment..."

  /** The traffic window keeps this many samples. */
  const MaxSamples: nat := 20

  /** The edit `rotateIP` hands to the store once its delay has passed: the
      same tab with a freshly drawn IP and everything else as it was. */
  function RotateIP(tab: BrowserTab, draws: Identity.IpDraws): (r: BrowserTab)
    ensures r.proxy.ip == Identity.GenerateRandomIP(draws)
    ensures r.proxy.country == tab.proxy.country && r.proxy.city == tab.proxy.city
    ensures r.proxy.isp == tab.proxy.isp && r.proxy.latency == tab.proxy.latency
    ensures r.id == tab.id && r.title == tab.title && r.url == tab.url
    ensures r.videos == tab.videos && r.isActive == tab.isActive
  {
    tab.(proxy := tab.proxy.(ip := Identity.GenerateRandomIP(draws)))
  }

  /** The video `addVideo` creates: a sample URL, a title numbered after the
      videos already there, playing, on the tab's IP. The id comes from the
      caller (`Math.random().toString(36)` in the source). */
  function NewVideo(tab: BrowserTab, urlDraw: Identity.Random, id: string): (v: VideoInstance)
    ensures v.id == id && v.url in Identity.SampleVideos
    ensures v.title == "Stream Source " + Text.NatToDecimal(|tab.videos| + 1)
    ensures v.status == Playing && v.ip == tab.proxy.ip
  {
    VideoInstance(
      id,
      Identity.SampleVideos[Identity.Scale(urlDraw, |Identity.SampleVideos|)],
      "Stream Source " + Text.NatToDecimal(|tab.videos| + 1),
      Playing,
      tab.proxy.ip)
  }

  /** The edit `addVideo` hands to the store: one new video at the end. */
  function AddVideo(tab: BrowserTab, urlDraw: Identity.Random, id: string): (r: BrowserTab)
    ensures |r.videos| == |tab.videos| + 1
    ensures r.videos[..|tab.videos|] == tab.videos
    ensures r.videos[|tab.videos|] == NewVideo(tab, urlDraw, id)
    ensures r == tab.(videos := r.videos)
  {
    tab.(videos := tab.videos + [NewVideo(tab, urlDraw, id)])
  }

  function VideosWithout(videos: seq<VideoInstance>, id: string): (r: seq<VideoInstance>)
    ensures forall k | 0 <= k < |r| :: r[k].id != id
    ensures forall v :: v in r <==> v in videos && v.id != id
    ensures (forall k | 0 <= k < |videos| :: videos[k].id != id) ==> r == videos
  {
    Lists.Filter(videos, (v: VideoInstance) => v.id != id)
  }

  /** The edit `removeVideo(id)` hands to the store: every video with that id
      is gone, the others stay in order, and nothing else changes. */
  function RemoveVideo(tab: BrowserTab, id: string): (r: BrowserTab)
    ensures forall v :: v in r.videos <==> v in tab.videos && v.id != id
    ensures |r.videos| <= |tab.videos|
    ensures (forall k | 0 <= k < |tab.videos| :: tab.videos[k].id != id) ==> r == tab
    ensures r == tab.(videos := r.videos)
  {
    tab.(videos := VideosWithout(tab.videos, id))
  }

  /** Removing keeps the surviving videos in their original order: removing
      from a concatenation removes from each part. */
  lemma RemoveVideoKeepsOrder(a: seq<VideoInstance>, b: seq<VideoInstance>, id: string)
    ensures VideosWithout(a + b, id) == VideosWithout(a, id) + VideosWithout(b, id)
  {
    Lists.FilterConcat(a, b, (v: VideoInstance) => v.id != id);
  }

  /** Adding a video with a fresh id and then removing it gives the tab back. */
  lemma RemoveUndoesAdd(tab: BrowserTab, urlDraw: Identity.Random, id: string)
    requires forall k | 0 <= k < |tab.videos| :: tab.videos[k].id != id
    ensures RemoveVideo(AddVideo(tab, urlDraw, id), id) == tab
  {
    var added := AddVideo(tab, urlDraw, id);
    assert added.videos == tab.videos + [NewVideo(tab, urlDraw, id)];
    RemoveVideoKeepsOrder(tab.videos, [NewVideo(tab, urlDraw, id)], id);
    assert VideosWithout([NewVideo(tab, urlDraw, id)], id) == [];
  }

  /** One point of the traffic chart. */
  datatype Sample = Sample(time: string, traffic: nat)

  /** The window after one tick: the new sample appended, only the newest
      `MaxSamples` kept. It holds min(old + 1, 20) samples, the new one last,
      preceded by the newest old ones in their original order. */
  function NextWindow(window: seq<Sample>, sample: Sample): (w: seq<Sample>)
    ensures |w| == (if |window| + 1 <= MaxSamples then |window| + 1 else MaxSamples)
    ensures w[|w| - 1] == sample
    ensures w[..|w| - 1] == window[|window| - (|w| - 1)..]
  {
    var all := window + [sample];
    var w := Lists.LastN(all, MaxSamples);
    assert w[..|w| - 1] == all[|all| - |w|..|all| - 1];
    assert all[..|all| - 1] == window;
    w
  }

  /** The component state of one tab. */
  class TabSession {
    var aiAdvice: string
    var isRotating: bool
    var networkData: seq<Sample>

    /** The window never exceeds its bound and every sample lies in [0, 99]. */
    ghost predicate Valid()
      reads this
    {
      |networkData| <= MaxSamples && forall k | 0 <= k < |networkData| :: networkData[k].traffic < 100
    }

    constructor ()
      ensures Valid()
      ensures aiAdvice == AdvicePlaceholder && !isRotating && networkData == []
    {
      aiAdvice := AdvicePlaceholder;
      isRotating := false;
      networkData := [];
    }

    /** The advice request resolves: its text replaces whatever was shown. */
    method ReceiveAdvice<Chunk>(env: Gateway.Env, call: Gateway.ProviderCall<Chunk>)
      requires Valid()
      modifies this
      ensures Valid()
      ensures aiAdvice == Gateway.GetProxyAdvice(env, call)
      ensures isRotating == old(isRotating) && networkData == old(networkData)
    {
      aiAdvice := Gateway.GetProxyAdvice(env, call);
    }

    /** One tick of the 2-second timer: a sample of `Math.floor(Math.random() * 100)`. */
    method Tick(time: string, draw: Identity.Random)
      requires Valid()
      modifies this
      ensures Valid()
      ensures networkData == NextWindow(old(networkData), Sample(time, Identity.Scale(draw, 100)))
      ensures aiAdvice == old(aiAdvice) && isRotating == old(isRotating)
    {
      networkData := NextWindow(networkData, Sample(time, Identity.Scale(draw, 100)));
    }

    /** The rotate button is pressed: the spinner starts. */
    method BeginRotation()
      requires Valid()
      modifies this
      ensures Valid() && isRotating
      ensures aiAdvice == old(aiAdvice) && networkData == old(networkData)
    {
      isRotating := true;
    }

    /** The rotation delay has passed: the spinner stops and the rotated tab
        is handed to the store. */
    method CompleteRotation(tab: BrowserTab, draws: Identity.IpDraws) returns (updated: BrowserTab)
      requires Valid()
      modifies this
      ensures Valid() && !isRotating
      ensures updated == RotateIP(tab, draws)
      ensures aiAdvice == old(aiAdvice) && networkData == old(networkData)
    {
      updated := RotateIP(tab, draws);
      isRotating := false;
    }
  }
}
