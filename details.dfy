/**
 * The `foreach` loop of `Main` that fetches one detail per listed item, as a function
 * of what each detail call ends with: `call(videoId)` stands for one call of
 * `GetVideoDetails`.
 */
module Details {
  import opened Wrappers
  import opened Runtime
  import opened Api
  import opened Aborts

  /** How a call of `GetVideoDetails` ends. */
  datatype DetailCall = Detail(detail: VideoDetail) | Null | Threw(ex: Exception)

  /** What one detail call ends with, given the video id it is made for. */
  type DetailSource = string -> DetailCall

  /** The abort a failed detail call causes for the item it was made for. */
  function Abandon(item: PlaylistItem, call: DetailCall): (a: Abort)
    requires !call.Detail?
    ensures a == VideoUnavailable(item.id) <==> call.Null?
    ensures call.Threw? ==> a == Unhandled(call.ex)
  {
    if call.Null? then VideoUnavailable(item.id) else Unhandled(call.ex)
  }

  /** The detail loop's result: every item's detail in order, or the abort of the first failure. */
  function FetchAll(call: DetailSource, items: seq<PlaylistItem>): (r: Result<seq<VideoDetail>, Abort>)
    ensures r.Success? ==>
              |r.value| == |items| && forall i :: 0 <= i < |items| ==> call(items[i].videoId) == Detail(r.value[i])
    ensures r.Failure? ==> r.error.VideoUnavailable? || r.error.Unhandled?
    decreases |items|
  {
    if items == [] then Success([])
    else
      match FetchAll(call, items[..|items| - 1])
      case Failure(e) => Failure(e)
      case Success(done) =>
        var last := items[|items| - 1];
        var c := call(last.videoId);
        if c.Detail? then
          var all := done + [c.detail];
          assert forall i :: 0 <= i < |done| ==> all[i] == done[i];
          Success(all)
        else Failure(Abandon(last, c))
  }

  /** The detail loop succeeds exactly when every item's detail call does. */
  lemma {:induction false} FetchAllSucceeds(call: DetailSource, items: seq<PlaylistItem>)
    ensures FetchAll(call, items).Success? <==> forall i :: 0 <= i < |items| ==> call(items[i].videoId).Detail?
    decreases |items|
  {
    if items != [] {
      var front := items[..|items| - 1];
      FetchAllSucceeds(call, front);
      assert forall i :: 0 <= i < |front| ==> front[i] == items[i];
    }
  }

  /** The first item whose detail call fails decides the abort, whatever the items after it. */
  lemma {:induction false} FetchAllStopsAtFirstFailure(call: DetailSource, items: seq<PlaylistItem>, k: nat)
    requires k < |items| && !call(items[k].videoId).Detail?
    requires forall i :: 0 <= i < k ==> call(items[i].videoId).Detail?
    ensures FetchAll(call, items) == Failure(Abandon(items[k], call(items[k].videoId)))
    decreases |items|
  {
    var front := items[..|items| - 1];
    assert forall i :: 0 <= i < |front| ==> front[i] == items[i];
    if k == |items| - 1 {
      FetchAllSucceeds(call, front);
    } else {
      FetchAllStopsAtFirstFailure(call, front, k);
    }
  }

  /** When every item's call produces a detail, the loop's result is those details, in item order. */
  lemma {:induction false} FetchAllOfDetails(call: DetailSource, items: seq<PlaylistItem>, details: seq<VideoDetail>)
    requires |details| == |items|
    requires forall j :: 0 <= j < |items| ==> call(items[j].videoId) == Detail(details[j])
    ensures FetchAll(call, items) == Success(details)
    decreases |items|
  {
    if items != [] {
      var k := |items| - 1;
      FetchAllOfDetails(call, items[..k], details[..k]);
      assert details[..k] + [details[k]] == details;
    }
  }

  /**
   * The `foreach` loop of `Main`: one detail request per listed item, in list order,
   * giving up at the first call that does not produce a detail. `call` is
   * `GetVideoDetails` for the run's key; `requested` lists the video ids a request
   * was made for, in order.
   */
  method CollectDetails(call: DetailSource, items: seq<PlaylistItem>)
    returns (details: Result<seq<VideoDetail>, Abort>, requested: seq<string>)
    ensures details == FetchAll(call, items)
    ensures |requested| <= |items|
    ensures forall j :: 0 <= j < |requested| ==> requested[j] == items[j].videoId
    ensures details.Success? ==> |requested| == |items|
    ensures details.Failure? ==> |requested| > 0 && !call(requested[|requested| - 1]).Detail?
    ensures forall j :: 0 <= j < |requested| - 1 ==> call(requested[j]).Detail?
  {
    var videoDetails: seq<VideoDetail> := [];
    requested := [];
    for i := 0 to |items|
      invariant |requested| == i && |videoDetails| == i
      invariant forall j :: 0 <= j < i ==> requested[j] == items[j].videoId
      invariant forall j :: 0 <= j < i ==> call(items[j].videoId) == Detail(videoDetails[j])
    {
      requested := requested + [items[i].videoId];
      var v := call(items[i].videoId);
      if !v.Detail? {
        FetchAllStopsAtFirstFailure(call, items, i);
        return Failure(Abandon(items[i], v)), requested;
      }
      videoDetails := videoDetails + [v.detail];
    }
    FetchAllOfDetails(call, items, videoDetails);
    details := Success(videoDetails);
  }

  /** A listed video that appears twice is fetched twice: its detail appears once per occurrence. */
  lemma DuplicatesKept(call: DetailSource, items: seq<PlaylistItem>, i: nat, j: nat)
    requires i < j < |items| && items[i].videoId == items[j].videoId
    requires FetchAll(call, items).Success?
    ensures FetchAll(call, items).value[i] == FetchAll(call, items).value[j]
  {
  }
}
