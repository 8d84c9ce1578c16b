/** The `Track` value of libs/spotifywrapper.py: built from a playback JSON
    object, with its artists rendered as an English list. */
module Tracks {
  import opened Py
  import Utils

  /** The three flags the skip loop sets after classifying a track
      (`track_heartbroken`, `album_heartbroken`, `artist_heartbroken`);
      None until then. */
  datatype Marks = Marks(track: Option<bool>, album: Option<bool>, artist: Option<bool>)

  const Unmarked := Marks(None, None, None)

  /** One playback snapshot. Text fields hold the JSON string that was sent,
      None for null, a missing key or a non-string value. `artists` is the
      English list, None where the source stores an empty list instead. */
  datatype Track = Track(
    playing: Json,
    timeRemainingMs: int,
    name: Option<string>,
    id: Option<string>,
    kind: Option<string>,
    album: Option<string>,
    albumId: Option<string>,
    artists: Option<string>,
    artistIds: seq<Option<string>>,
    marks: Marks)

  /** The snapshot built when `is_playing` equals False or `item` is null. */
  function IdleTrack(playing: Json): Track
  {
    Track(playing, -1, None, None, None, None, None, None, [], Unmarked)
  }

  // ---------------------------------------------------------------------------
  // format_artist_list

  /** `[a for a in artists if type(a) == str and a != '']` */
  function ValidNames(names: seq<Json>): seq<string>
  {
    if names == [] then []
    else (if names[0].JStr? && names[0].s != "" then [names[0].s] else []) + ValidNames(names[1..])
  }

  /** `sep.join(xs)` */
  function Join(sep: string, xs: seq<string>): string
  {
    if xs == [] then ""
    else if |xs| == 1 then xs[0]
    else xs[0] + sep + Join(sep, xs[1..])
  }

  /** `Track.format_artist_list`: one name alone, two joined by " and ", three or
      more comma-separated with ", and " before the last. No valid name falls
      into the last branch, where `artists[-1]` raises IndexError. */
  function FormatArtistList(names: seq<Json>): (r: Result<string>)
    ensures r.Raised? <==> ValidNames(names) == []
    ensures r.Raised? ==> r == Raised(IndexError)
    ensures r.Ok? ==> var a := ValidNames(names);
      |a[0]| <= |r.value| && r.value[..|a[0]|] == a[0]
      && |a[|a| - 1]| <= |r.value| && r.value[|r.value| - |a[|a| - 1]|..] == a[|a| - 1]
  {
    var a := ValidNames(names);
    if |a| == 1 then Ok(a[0])
    else if |a| == 2 then JoinEnds(" and ", a); Ok(Join(" and ", a))
    else if |a| == 0 then Raised(IndexError)
    else
      JoinEnds(", ", a[..|a| - 1]);
      Ok(Join(", ", a[..|a| - 1]) + ", and " + a[|a| - 1])
  }

  /** The names kept are exactly the non-empty strings, in their original order. */
  lemma {:induction false} ValidNamesKeeps(names: seq<Json>)
    ensures forall s :: s in ValidNames(names) <==> JStr(s) in names && s != ""
    ensures |ValidNames(names)| <= |names|
  {
    if names != [] {
      ValidNamesKeeps(names[1..]);
      assert names == [names[0]] + names[1..];
    }
  }

  /** A join starts with its first item and ends with its last. */
  lemma {:induction false} JoinEnds(sep: string, xs: seq<string>)
    requires xs != []
    ensures |xs[0]| <= |Join(sep, xs)| && Join(sep, xs)[..|xs[0]|] == xs[0]
    ensures var last := xs[|xs| - 1];
      |last| <= |Join(sep, xs)| && Join(sep, xs)[|Join(sep, xs)| - |last|..] == last
    decreases |xs|
  {
    if |xs| > 1 {
      JoinEnds(sep, xs[1..]);
      var rest := Join(sep, xs[1..]);
      assert Join(sep, xs) == xs[0] + (sep + rest);
      assert xs[1..][|xs[1..]| - 1] == xs[|xs| - 1];
    }
  }

  lemma {:induction false} JoinSnoc(sep: string, xs: seq<string>, y: string)
    requires xs != []
    ensures Join(sep, xs + [y]) == Join(sep, xs) + sep + y
    decreases |xs|
  {
    if |xs| > 1 {
      assert (xs + [y])[1..] == xs[1..] + [y];
      JoinSnoc(sep, xs[1..], y);
    }
  }

  /** The English list in full: an error exactly when no valid name remains, the
      lone name, "A and B", and for three or more the comma-separated list whose
      last item is prefixed with "and " (the comma before "and" is kept). */
  lemma {:induction false} FormatArtistListShape(names: seq<Json>)
    ensures var a := ValidNames(names);
      && (FormatArtistList(names).Raised? <==> a == [])
      && (a == [] ==> FormatArtistList(names) == Raised(IndexError))
      && (|a| == 1 ==> FormatArtistList(names) == Ok(a[0]))
      && (|a| == 2 ==> FormatArtistList(names) == Ok(a[0] + " and " + a[1]))
      && (|a| >= 3 ==> FormatArtistList(names) == Ok(Join(", ", a[..|a| - 1] + ["and " + a[|a| - 1]])))
  {
    var a := ValidNames(names);
    if |a| == 2 {
      assert Join(" and ", a) == a[0] + " and " + Join(" and ", a[1..]);
    } else if |a| >= 3 {
      var init, last := a[..|a| - 1], a[|a| - 1];
      JoinSnoc(", ", init, "and " + last);
      calc {
        Join(", ", init + ["and " + last]);
        Join(", ", init) + ", " + ("and " + last);
        Join(", ", init) + (", " + ("and " + last));
        { assert ", " + ("and " + last) == ", and " + last; }
        Join(", ", init) + ", and " + last;
      }
    }
  }

  /** Non-string and empty names are dropped before formatting. */
  lemma FormatArtistListExamples()
    ensures FormatArtistList([JStr("A")]) == Ok("A")
    ensures FormatArtistList([JStr("A"), JStr("B")]) == Ok("A and B")
    ensures FormatArtistList([JStr("A"), JStr("B"), JStr("C")]) == Ok("A, B, and C")
    ensures FormatArtistList([JNull, JStr(""), JStr("A"), JInt(7), JStr("B")]) == Ok("A and B")
    ensures FormatArtistList([JNull, JStr("")]) == Raised(IndexError)
  {
    assert Join(" and ", ["A", "B"]) == "A and B";
    assert ValidNames([JStr("A"), JStr("B"), JStr("C")]) == ["A", "B", "C"];
    assert ["A", "B", "C"][..2] == ["A", "B"];
    assert Join(", ", ["A", "B"]) == "A, B";
    assert "A, B" + ", and " + "C" == "A, B, and C";
    assert ValidNames([JNull, JStr(""), JStr("A"), JInt(7), JStr("B")]) == ["A", "B"];
  }

  // ---------------------------------------------------------------------------
  // Track.__init__

  /** The elements `for a in _artists` visits, when every one of them can be a
      dictionary: a list yields its items; an empty dict or string yields nothing;
      a non-empty dict or string yields strings, on which `.get` raises
      AttributeError; a number, a bool or None is not iterable. */
  function ArtistEntries(j: Json): Result<seq<Json>>
  {
    match j
    case JList(xs) => Ok(xs)
    case JDict(m) => if m == map[] then Ok([]) else Raised(AttributeError)
    case JStr(s) => if s == "" then Ok([]) else Raised(AttributeError)
    case _ => Raised(TypeError)
  }

  /** `[a.get(key, None) for a in artists]` */
  function ArtistField(artists: seq<Json>, key: string): (r: Result<seq<Json>>)
    ensures r.Ok? <==> forall k :: 0 <= k < |artists| ==> artists[k].JDict?
    ensures r.Ok? ==> |r.value| == |artists|
  {
    if artists == [] then Ok([])
    else if !artists[0].JDict? then Raised(AttributeError)
    else match ArtistField(artists[1..], key)
      case Raised(e) => Raised(e)
      case Ok(rest) => Ok([Get(artists[0].fields, key, JNull)] + rest)
  }

  function Texts(js: seq<Json>): seq<Option<string>>
  {
    if js == [] then [] else [AsText(js[0])] + Texts(js[1..])
  }

  /** `duration_ms - progress_ms`, with the defaults -1 and 0; TypeError on non-numbers. */
  function Remaining(item: map<string, Json>, data: map<string, Json>): Result<int>
  {
    var duration := AsInt(Get(item, "duration_ms", JInt(-1)));
    var progress := AsInt(Get(data, "progress_ms", JInt(0)));
    if duration.Some? && progress.Some? then Ok(duration.value - progress.value) else Raised(TypeError)
  }

  /** `Track(json_response)`. A falsy response stands for `{}`; the fields come
      from `item`; the remaining time is computed only when `is_playing == True`;
      the album fields go through `_deep_get`; failures raise as in the source. */
  function TrackFromJson(response: Json): (r: Result<Track>)
    ensures !Truthy(response) ==> r == Ok(IdleTrack(JBool(false)))
    ensures Truthy(response) && !response.JDict? ==> r == Raised(AttributeError)
    ensures r.Ok? ==> r.value.marks == Unmarked
    ensures r.Ok? && !EqualsTrue(r.value.playing) ==> r.value.timeRemainingMs == -1
    ensures r.Ok? && r.value.artists.None? ==> r.value == IdleTrack(r.value.playing)
    ensures r.Ok? && r.value.artists.Some? ==> |r.value.artistIds| > 0
  {
    var data := if Truthy(response) then response else JDict(map[]);
    if !data.JDict? then Raised(AttributeError)
    else
      var item := Get(data.fields, "item", JDict(map[]));
      var playing := Get(data.fields, "is_playing", JBool(false));
      if EqualsFalse(playing) || item == JNull then Ok(IdleTrack(playing))
      else if !item.JDict? then Raised(AttributeError)
      else ItemTrack(playing, item.fields, data.fields)
  }

  /** The part of the constructor that reads a dictionary `item`. */
  function ItemTrack(playing: Json, item: map<string, Json>, data: map<string, Json>): Result<Track>
  {
    var remaining := if EqualsTrue(playing) then Remaining(item, data) else Ok(-1);
    var album := Utils.DeepGet(JDict(item), ["album", "name"], JNull);
    var albumId := Utils.DeepGet(JDict(item), ["album", "id"], JNull);
    var entries := ArtistEntries(Get(item, "artists", JDict(map[])));
    if remaining.Raised? then Raised(remaining.error)
    else if album.Raised? then Raised(album.error)
    else if albumId.Raised? then Raised(albumId.error)
    else if entries.Raised? then Raised(entries.error)
    else
      var names := ArtistField(entries.value, "name");
      var ids := ArtistField(entries.value, "id");
      if names.Raised? then Raised(names.error)
      else
        var artists := FormatArtistList(names.value);
        if artists.Raised? then Raised(artists.error)
        else Ok(Track(
          playing, remaining.value,
          AsText(Get(item, "name", JNull)),
          AsText(Get(item, "id", JNull)),
          AsText(Get(item, "currently_playing_type", JNull)),
          AsText(album.value), AsText(albumId.value),
          Some(artists.value), Texts(ids.value), Unmarked))
  }

  // ---------------------------------------------------------------------------
  // Decoding a well-formed playback object

  /** The fields of a playing track as the Web API sends them. */
  datatype Playback = Playback(
    name: string, id: string, albumName: string, albumId: string,
    artists: seq<(string, string)>, durationMs: int, progressMs: int)

  function ArtistsJson(artists: seq<(string, string)>): seq<Json>
  {
    if artists == [] then []
    else [JDict(map["name" := JStr(artists[0].0), "id" := JStr(artists[0].1)])] + ArtistsJson(artists[1..])
  }

  function ItemOf(p: Playback): map<string, Json>
  {
    map[
      "name" := JStr(p.name),
      "id" := JStr(p.id),
      "duration_ms" := JInt(p.durationMs),
      "album" := JDict(map["name" := JStr(p.albumName), "id" := JStr(p.albumId)]),
      "artists" := JList(ArtistsJson(p.artists))]
  }

  /** The body of a "currently playing" reply for `p`. */
  function PlaybackJson(p: Playback): Json
  {
    JDict(map["is_playing" := JBool(true), "progress_ms" := JInt(p.progressMs), "item" := JDict(ItemOf(p))])
  }

  function ArtistIdsOf(artists: seq<(string, string)>): seq<Option<string>>
  {
    if artists == [] then [] else [Some(artists[0].1)] + ArtistIdsOf(artists[1..])
  }

  function NamesJson(artists: seq<(string, string)>): seq<Json>
  {
    if artists == [] then [] else [JStr(artists[0].0)] + NamesJson(artists[1..])
  }

  lemma {:induction false} ArtistFieldsOfJson(artists: seq<(string, string)>)
    ensures ArtistField(ArtistsJson(artists), "name") == Ok(NamesJson(artists))
    ensures ArtistField(ArtistsJson(artists), "id").Ok?
    ensures Texts(ArtistField(ArtistsJson(artists), "id").value) == ArtistIdsOf(artists)
  {
    if artists != [] {
      ArtistFieldsOfJson(artists[1..]);
      var js := ArtistsJson(artists);
      assert js[1..] == ArtistsJson(artists[1..]);
    }
  }

  /** Every field the constructor reads from a dictionary item, in terms of
      what the item holds. */
  lemma ItemTrackFields(playing: Json, item: map<string, Json>, data: map<string, Json>,
                        album: Json, albumId: Json, artists: seq<Json>, remaining: int)
    requires EqualsTrue(playing) && Remaining(item, data) == Ok(remaining)
    requires Utils.DeepGet(JDict(item), ["album", "name"], JNull) == Ok(album)
    requires Utils.DeepGet(JDict(item), ["album", "id"], JNull) == Ok(albumId)
    requires Get(item, "artists", JDict(map[])) == JList(artists)
    requires ArtistField(artists, "name").Ok? && FormatArtistList(ArtistField(artists, "name").value).Ok?
    ensures ItemTrack(playing, item, data) == Ok(Track(
      playing, remaining,
      AsText(Get(item, "name", JNull)), AsText(Get(item, "id", JNull)),
      AsText(Get(item, "currently_playing_type", JNull)),
      AsText(album), AsText(albumId),
      Some(FormatArtistList(ArtistField(artists, "name").value).value),
      Texts(ArtistField(artists, "id").value), Unmarked))
  {
  }

  /** Decoding the playback object of a playing track recovers its ids, names,
      album and remaining time; the type is None because the source reads
      `currently_playing_type` from the item, which does not carry it. */
  lemma DecodePlayback(p: Playback)
    requires p.artists != [] && p.artists[0].0 != ""
    ensures FormatArtistList(NamesJson(p.artists)).Ok?
    ensures TrackFromJson(PlaybackJson(p)) == Ok(Track(
      JBool(true), p.durationMs - p.progressMs, Some(p.name), Some(p.id), None,
      Some(p.albumName), Some(p.albumId), Some(FormatArtistList(NamesJson(p.artists)).value),
      ArtistIdsOf(p.artists), Unmarked))
  {
    ArtistFieldsOfJson(p.artists);
    var names := NamesJson(p.artists);
    assert names == [JStr(p.artists[0].0)] + names[1..];
    assert ValidNames(names) != [];
    PlaybackTrack(p);
  }

  /** The track read from the playback object, once its artist names format. */
  lemma PlaybackTrack(p: Playback)
    requires FormatArtistList(NamesJson(p.artists)).Ok?
    ensures TrackFromJson(PlaybackJson(p)) == Ok(Track(
      JBool(true), p.durationMs - p.progressMs, Some(p.name), Some(p.id), None,
      Some(p.albumName), Some(p.albumId), Some(FormatArtistList(NamesJson(p.artists)).value),
      ArtistIdsOf(p.artists), Unmarked))
  {
    PlaybackIsItem(p);
    ItemOfReads(p);
    ArtistFieldsOfJson(p.artists);
    ItemTrackFields(JBool(true), ItemOf(p), PlaybackJson(p).fields, JStr(p.albumName), JStr(p.albumId),
                    ArtistsJson(p.artists), p.durationMs - p.progressMs);
  }

  lemma PlaybackIsItem(p: Playback)
    ensures TrackFromJson(PlaybackJson(p)) == ItemTrack(JBool(true), ItemOf(p), PlaybackJson(p).fields)
  {
  }

  /** What the constructor reads from the item of `p`. */
  lemma ItemOfReads(p: Playback)
    ensures var item := ItemOf(p);
      && Get(item, "name", JNull) == JStr(p.name)
      && Get(item, "id", JNull) == JStr(p.id)
      && Get(item, "currently_playing_type", JNull) == JNull
      && Get(item, "artists", JDict(map[])) == JList(ArtistsJson(p.artists))
      && Remaining(item, PlaybackJson(p).fields) == Ok(p.durationMs - p.progressMs)
      && Utils.DeepGet(JDict(item), ["album", "name"], JNull) == Ok(JStr(p.albumName))
      && Utils.DeepGet(JDict(item), ["album", "id"], JNull) == Ok(JStr(p.albumId))
  {
    var album := map["name" := JStr(p.albumName), "id" := JStr(p.albumId)];
    DeepGetAlbum(ItemOf(p), album, "name");
    DeepGetAlbum(ItemOf(p), album, "id");
  }

  lemma DeepGetAlbum(item: map<string, Json>, album: map<string, Json>, key: string)
    requires "album" in item && item["album"] == JDict(album) && key in album
    ensures Utils.DeepGet(JDict(item), ["album", key], JNull) == Ok(album[key])
  {
    assert ["album", key][1..] == [key];
    assert [key][1..] == [];
    assert Utils.Follow(album[key], [], JNull) == Ok(album[key]);
    assert Utils.Follow(JDict(album), [key], JNull) == Ok(album[key]);
  }

  /** A playing item without artists (a podcast episode, for one) makes the
      constructor raise IndexError from `format_artist_list`. */
  lemma ItemWithoutArtistsRaises(id: string)
    ensures TrackFromJson(JDict(map["is_playing" := JBool(true), "item" := JDict(map["id" := JStr(id)])]))
         == Raised(IndexError)
  {
    var item := JDict(map["id" := JStr(id)]);
    assert Utils.DeepGet(item, ["album", "name"], JNull) == Ok(JNull);
    assert Utils.DeepGet(item, ["album", "id"], JNull) == Ok(JNull);
  }

  /** A response that is not playing gives a snapshot with no id whose
      `is_playing` is falsy. */
  lemma NotPlayingDecodes(response: Json)
    requires response.JDict? && "is_playing" !in response.fields
    ensures TrackFromJson(response).Ok?
    ensures TrackFromJson(response).value.id == None
    ensures !Truthy(TrackFromJson(response).value.playing)
  {
  }
}
