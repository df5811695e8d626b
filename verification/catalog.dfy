/** The fetch phase: the playlist's pages of catalog items become track descriptors,
    and each descriptor that the video search finds becomes a download job. The catalog
    and the search service are black boxes passed in as functions. */
module Catalog {
  import opened Results
  import PlaylistUrl

  /** A catalog track entity: its name, the names of its listed artists, its album. */
  datatype Track = Track(name: string, artists: seq<string>, album: string)

  /** One page of playlist items; `None` is an item whose track is null. */
  type Page = seq<Option<Track>>

  /** The `{'name', 'artist', 'album'}` record built for each track. */
  datatype TrackInfo = TrackInfo(name: string, artist: string, album: string)

  /** One resolved download job. */
  datatype Job = Job(title: string, artist: string, album: string, url: string)

  /** What a call to the video search gives back: the URL suffixes of its results, in
      rank order, or the message of the exception it raised. */
  datatype SearchOutcome = SearchRaised(message: string) | Hits(urlSuffixes: seq<string>)

  datatype FetchError =
    | InvalidUrl(message: string)  // no playlist identifier in the URL
    | NoArtist                     // a track with an empty artist list (the `[0]` index fails)
    | Upstream(message: string)    // the catalog call raised

  const VideoSite: string := "https://youtube.com"
  const QueryQualifier: string := " audio"

  /** All items of all pages, in page order. */
  function Items(pages: seq<Page>): (items: seq<Option<Track>>)
  {
    if |pages| == 0 then [] else pages[0] + Items(pages[1..])
  }

  /** The tracks of the items whose track is not null, in order. */
  function Present(items: seq<Option<Track>>): (ts: seq<Track>)
    ensures |ts| <= |items|
  {
    if |items| == 0 then []
    else (if items[0].Some? then [items[0].value] else []) + Present(items[1..])
  }

  lemma {:induction false} PresentAppend(a: seq<Option<Track>>, b: seq<Option<Track>>)
    ensures Present(a + b) == Present(a) + Present(b)
  {
    if |a| > 0 {
      assert (a + b)[1..] == a[1..] + b;
      PresentAppend(a[1..], b);
    } else {
      assert a + b == b;
    }
  }

  predicate HasArtist(t: Track) {
    |t.artists| > 0
  }

  predicate AllHaveArtist(ts: seq<Track>) {
    forall i :: 0 <= i < |ts| ==> HasArtist(ts[i])
  }

  lemma AllHaveArtistAppend(a: seq<Track>, b: seq<Track>)
    ensures AllHaveArtist(a + b) <==> AllHaveArtist(a) && AllHaveArtist(b)
  {
    assert forall i :: 0 <= i < |a| ==> (a + b)[i] == a[i];
    assert forall i :: 0 <= i < |b| ==> (a + b)[|a| + i] == b[i];
  }

  /** The descriptor of a track: its name, its FIRST listed artist and its album. */
  function Describe(t: Track): (d: TrackInfo)
    requires HasArtist(t)
    ensures d.name == t.name && d.artist == t.artists[0] && d.album == t.album
  {
    TrackInfo(t.name, t.artists[0], t.album)
  }

  /** The descriptors of `ts`, one for one and in order. */
  predicate DescribesAll(ds: seq<TrackInfo>, ts: seq<Track>)
    requires AllHaveArtist(ts)
  {
    |ds| == |ts| && forall i :: 0 <= i < |ts| ==> ds[i] == Describe(ts[i])
  }

  /** The list comprehension over one page: skip null tracks, describe the others, and
      fail if a kept track lists no artist. */
  function DescribePage(page: Page): (r: Result<seq<TrackInfo>, FetchError>)
    ensures r.Success? <==> AllHaveArtist(Present(page))
    ensures r.Success? ==> DescribesAll(r.value, Present(page))
    ensures r.Failure? ==> r.error == NoArtist
  {
    if |page| == 0 then Success([])
    else
      var rest := DescribePage(page[1..]);
      PresentCons(page);
      match page[0]
      case None => rest
      case Some(t) =>
        if !HasArtist(t) then Failure(NoArtist)
        else if rest.Failure? then rest
        else Success([Describe(t)] + rest.value)
  }

  /** The first item of a page followed by the rest. */
  lemma PresentCons(page: Page)
    requires |page| > 0
    ensures page[0].None? ==> Present(page) == Present(page[1..])
    ensures page[0].Some? ==> Present(page) == [page[0].value] + Present(page[1..])
    ensures AllHaveArtist(Present(page))
            <==> (page[0].Some? ==> HasArtist(page[0].value)) && AllHaveArtist(Present(page[1..]))
  {
    var first := if page[0].Some? then [page[0].value] else [];
    assert Present(page) == first + Present(page[1..]);
    AllHaveArtistAppend(first, Present(page[1..]));
    if page[0].Some? {
      assert AllHaveArtist(first) <==> HasArtist(page[0].value) by {
        assert first[0] == page[0].value;
      }
    }
  }

  /** The pagination loop: each page's descriptors are appended in turn, and a failing
      page aborts the whole list. The result is the descriptors of the non-null items of
      all pages, concatenated in order, so it is never longer than the item count. */
  function FlattenPages(pages: seq<Page>): (r: Result<seq<TrackInfo>, FetchError>)
    ensures r.Success? <==> AllHaveArtist(Present(Items(pages)))
    ensures r.Success? ==> DescribesAll(r.value, Present(Items(pages)))
    ensures r.Success? ==> |r.value| <= |Items(pages)|
    ensures r.Failure? ==> r.error == NoArtist
  {
    if |pages| == 0 then Success([])
    else
      PresentAppend(pages[0], Items(pages[1..]));
      AllHaveArtistAppend(Present(pages[0]), Present(Items(pages[1..])));
      var head := DescribePage(pages[0]);
      var tail := FlattenPages(pages[1..]);
      if head.Failure? then head
      else if tail.Failure? then tail
      else Success(head.value + tail.value)
  }

  /** The flattened list depends on nothing but the non-null items in order: pages
      that differ only in where the page breaks fall and where null items sit give the
      same result. */
  lemma FlattenDependsOnlyOnPresent(pages1: seq<Page>, pages2: seq<Page>)
    requires Present(Items(pages1)) == Present(Items(pages2))
    ensures FlattenPages(pages1) == FlattenPages(pages2)
  {
    var r1 := FlattenPages(pages1);
    var r2 := FlattenPages(pages2);
    if r1.Success? && r2.Success? {
      assert r1.value == r2.value;
    }
  }

  /** Page boundaries do not matter: the pages flatten as one page holding all items. */
  lemma FlattenAsOnePage(pages: seq<Page>)
    ensures FlattenPages(pages) == FlattenPages([Items(pages)])
  {
    var one := [Items(pages)];
    assert one[1..] == [];
    assert Items(one) == Items(pages) + [];
    assert Items(pages) + [] == Items(pages);
    FlattenDependsOnlyOnPresent(pages, one);
  }

  lemma {:induction false} ItemsAppend(a: seq<Page>, b: seq<Page>)
    ensures Items(a + b) == Items(a) + Items(b)
  {
    if |a| > 0 {
      assert (a + b)[1..] == a[1..] + b;
      ItemsAppend(a[1..], b);
    } else {
      assert a + b == b;
    }
  }

  /** What the catalog delivers for a playlist identifier: the pages it returned, in
      order, and the message of the exception that ended the paging early, if one did
      (raised by the first request, or by a request for a later page). */
  datatype Delivery = Delivery(pages: seq<Page>, raised: Option<string>)

  /** `get_spotify_playlist_tracks`: the identifier is extracted from the URL, then each
      page is flattened as it arrives. A page with an artist-less track aborts before the
      next page is asked for, so its `NoArtist` wins over a later paging failure; a paging
      failure after well-formed pages surfaces as `Upstream`. */
  function FetchTracks(url: string, catalog: string -> Delivery): (r: Result<seq<TrackInfo>, FetchError>)
    ensures r == Failure(InvalidUrl(PlaylistUrl.InvalidUrlMessage)) <==> PlaylistUrl.ExtractPlaylistId(url).Failure?
    ensures PlaylistUrl.ExtractPlaylistId(url).Success? ==>
              var d := catalog(PlaylistUrl.ExtractPlaylistId(url).value);
              var ts := Present(Items(d.pages));
              && (r == Failure(NoArtist) <==> !AllHaveArtist(ts))
              && (r.Success? <==> AllHaveArtist(ts) && d.raised.None?)
              && (r.Success? ==> AllHaveArtist(ts) && DescribesAll(r.value, ts))
              && (AllHaveArtist(ts) && d.raised.Some? ==> r == Failure(Upstream(d.raised.value)))
  {
    match PlaylistUrl.ExtractPlaylistId(url)
    case Failure(message) => Failure(InvalidUrl(message))
    case Success(id) =>
      var d := catalog(id);
      match FlattenPages(d.pages)
      case Failure(e) => Failure(e)
      case Success(tracks) =>
        if d.raised.Some? then Failure(Upstream(d.raised.value)) else Success(tracks)
  }

  /** The search query for a track: its name, a space, its artist, then " audio". */
  function SearchQuery(t: TrackInfo): (q: string)
    ensures |q| == |t.name| + 1 + |t.artist| + |QueryQualifier|
    ensures q[..|t.name|] == t.name
    ensures q[|t.name|] == ' '
    ensures q[|t.name| + 1..|t.name| + 1 + |t.artist|] == t.artist
    ensures q[|q| - |QueryQualifier|..] == QueryQualifier
  {
    t.name + " " + t.artist + QueryQualifier
  }

  /** `find_youtube_link`: a job exactly when the search returned at least one result;
      the job keeps the track's title, artist and album and points at the first result. */
  function FindLink(t: TrackInfo, outcome: SearchOutcome): (r: Option<Job>)
    ensures r.Some? <==> outcome.Hits? && |outcome.urlSuffixes| > 0
    ensures r.Some? ==> && r.value.title == t.name
                        && r.value.artist == t.artist
                        && r.value.album == t.album
                        && |r.value.url| >= |VideoSite|
                        && r.value.url[..|VideoSite|] == VideoSite
                        && r.value.url[|VideoSite|..] == outcome.urlSuffixes[0]
  {
    match outcome
    case SearchRaised(_) => None
    case Hits(suffixes) =>
      if |suffixes| == 0 then None
      else Some(Job(t.name, t.artist, t.album, VideoSite + suffixes[0]))
  }

  predicate Found(t: TrackInfo, search: string -> SearchOutcome) {
    FindLink(t, search(SearchQuery(t))).Some?
  }

  /** The loop of `fetch_tracks_worker`: each track in turn is searched, and its job, if
      any, is appended. */
  function ResolveJobs(tracks: seq<TrackInfo>, search: string -> SearchOutcome): (jobs: seq<Job>)
    ensures |jobs| <= |tracks|
    decreases |tracks|
  {
    if |tracks| == 0 then []
    else
      var last := tracks[|tracks| - 1];
      var earlier := ResolveJobs(tracks[..|tracks| - 1], search);
      match FindLink(last, search(SearchQuery(last)))
      case None => earlier
      case Some(job) => earlier + [job]
  }

  /** The positions of the tracks the search finds, in increasing order. */
  function FoundIndices(tracks: seq<TrackInfo>, search: string -> SearchOutcome): (idx: seq<nat>)
    ensures forall k :: 0 <= k < |idx| ==> idx[k] < |tracks| && Found(tracks[idx[k]], search)
    ensures forall k, l :: 0 <= k < l < |idx| ==> idx[k] < idx[l]
    ensures forall i :: 0 <= i < |tracks| && Found(tracks[i], search) ==> i in idx
    decreases |tracks|
  {
    if |tracks| == 0 then []
    else
      var n := |tracks| - 1;
      var earlier := FoundIndices(tracks[..n], search);
      if Found(tracks[n], search) then earlier + [n] else earlier
  }

  /** `jobs[k]` is the job the search yields for the track at `idx[k]`, for every `k`. */
  ghost predicate JobsOfIndices(tracks: seq<TrackInfo>, search: string -> SearchOutcome, jobs: seq<Job>, idx: seq<nat>) {
    && |jobs| == |idx|
    && forall k :: 0 <= k < |idx| ==>
         idx[k] < |tracks| && Some(jobs[k]) == FindLink(tracks[idx[k]], search(SearchQuery(tracks[idx[k]])))
  }

  /** Appending a track keeps the pairing of the earlier tracks. */
  lemma JobsOfIndicesExtend(tracks: seq<TrackInfo>, t: TrackInfo, search: string -> SearchOutcome, jobs: seq<Job>, idx: seq<nat>)
    requires JobsOfIndices(tracks, search, jobs, idx)
    ensures JobsOfIndices(tracks + [t], search, jobs, idx)
  {
    forall k | 0 <= k < |idx|
      ensures (tracks + [t])[idx[k]] == tracks[idx[k]]
    {
    }
  }

  /** Appending a found track and its job extends the pairing. */
  lemma JobsOfIndicesFound(tracks: seq<TrackInfo>, t: TrackInfo, search: string -> SearchOutcome, jobs: seq<Job>, idx: seq<nat>, job: Job)
    requires JobsOfIndices(tracks + [t], search, jobs, idx)
    requires Some(job) == FindLink(t, search(SearchQuery(t)))
    ensures JobsOfIndices(tracks + [t], search, jobs + [job], idx + [|tracks|])
  {
    assert (tracks + [t])[|tracks|] == t;
  }

  /** The jobs are the found tracks' jobs, one per found track, in playlist order: the
      k-th job belongs to the k-th track the search finds. */
  lemma {:induction false} ResolveJobsByIndex(tracks: seq<TrackInfo>, search: string -> SearchOutcome)
    ensures JobsOfIndices(tracks, search, ResolveJobs(tracks, search), FoundIndices(tracks, search))
    decreases |tracks|
  {
    if |tracks| > 0 {
      var n := |tracks| - 1;
      var prefix := tracks[..n];
      assert tracks == prefix + [tracks[n]];
      ResolveJobsByIndex(prefix, search);
      var earlierJobs := ResolveJobs(prefix, search);
      var earlierIdx := FoundIndices(prefix, search);
      JobsOfIndicesExtend(prefix, tracks[n], search, earlierJobs, earlierIdx);
      match FindLink(tracks[n], search(SearchQuery(tracks[n])))
      case None =>
      case Some(job) =>
        JobsOfIndicesFound(prefix, tracks[n], search, earlierJobs, earlierIdx, job);
    }
  }

  /** A track the search does not find (no result, or the search raised) yields no job. */
  lemma UnmatchedTrackDropped(t: TrackInfo, search: string -> SearchOutcome)
    requires search(SearchQuery(t)).SearchRaised? || search(SearchQuery(t)) == Hits([])
    ensures ResolveJobs([t], search) == []
  {
    assert [t][..0] == [];
  }

  /** `fetch_tracks_worker`: fetch the track list, then resolve it to jobs. Any error of
      the fetch aborts the phase; search failures only drop tracks. On success the jobs
      are exactly the found tracks' jobs, in playlist order. */
  function FetchJobs(url: string, catalog: string -> Delivery, search: string -> SearchOutcome): (r: Result<seq<Job>, FetchError>)
    ensures FetchTracks(url, catalog).Failure? <==> r.Failure?
    ensures r.Failure? ==> r.error == FetchTracks(url, catalog).error
    ensures r.Success? ==> var ts := FetchTracks(url, catalog).value;
                           JobsOfIndices(ts, search, r.value, FoundIndices(ts, search))
  {
    match FetchTracks(url, catalog)
    case Failure(e) => Failure(e)
    case Success(tracks) =>
      ResolveJobsByIndex(tracks, search);
      Success(ResolveJobs(tracks, search))
  }
}
