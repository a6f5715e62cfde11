/**
 * The relational store behind the route handlers and one method per endpoint that
 * touches it. Each handler is one atomic step: validate, look up, edit the loaded
 * relation in memory, save the owner, reply with a status.
 */
module Store {
  import opened Wrappers
  import opened Entities
  import opened Http
  import opened Relations
  import opened Text

  /** The condition `findBy({ login, password })` puts on a user row. */
  predicate Matches(u: User, login: string, password: string)
  {
    u.login == login && u.password == password
  }

  /** The first user, in id order within `[from, to)`, matching both credentials. */
  function FirstMatch(users: map<Id, User>, login: string, password: string, from: nat, to: nat): (r: Option<Id>)
    decreases to - from
    ensures r.Some? ==> from <= r.value < to && r.value in users && Matches(users[r.value], login, password)
    ensures r.Some? ==> forall k :: from <= k < r.value && k in users ==> !Matches(users[k], login, password)
    ensures r.None? ==> forall k :: from <= k < to && k in users ==> !Matches(users[k], login, password)
  {
    if from >= to then None
    else if from in users && Matches(users[from], login, password) then Some(from)
    else FirstMatch(users, login, password, from + 1, to)
  }

  /** The search condition: `title LIKE '%q%' AND private = false` (a missing flag is SQL NULL and never equals false). */
  predicate Listed(p: Playlist, q: string)
  {
    p.private == Some(false) && Contains(p.title, q)
  }

  /** The ids in `[from, to)` of the playlists the search condition selects, ascending. */
  function SearchIds(playlists: map<Id, Playlist>, q: string, from: nat, to: nat): (r: seq<Id>)
    decreases to - from
    ensures forall i :: 0 <= i < |r| ==> from <= r[i] < to && r[i] in playlists && Listed(playlists[r[i]], q)
    ensures forall id :: from <= id < to && id in playlists && Listed(playlists[id], q) ==> id in r
    ensures forall i, j :: 0 <= i < j < |r| ==> r[i] < r[j]
  {
    if from >= to then []
    else (if from in playlists && Listed(playlists[from], q) then [from] else []) + SearchIds(playlists, q, from + 1, to)
  }

  function Infos(ids: seq<Id>, playlists: map<Id, Playlist>): seq<PlaylistInfo>
    requires forall i :: 0 <= i < |ids| ==> ids[i] in playlists
  {
    seq(|ids|, i requires 0 <= i < |ids| => InfoOf(ids[i], playlists[ids[i]]))
  }

  function TrackInfos(ids: seq<Id>, tracks: map<Id, Track>): seq<TrackInfo>
    requires forall i :: 0 <= i < |ids| ==> ids[i] in tracks
  {
    seq(|ids|, i requires 0 <= i < |ids| => TrackInfo(ids[i], tracks[ids[i]].url))
  }

  /** The User, Playlist and Track tables with one id sequence each. */
  class Store {
    var users: map<Id, User>
    var playlists: map<Id, Playlist>
    var tracks: map<Id, Track>
    var nextUserId: Id
    var nextPlaylistId: Id
    var nextTrackId: Id

    /** Ids lie below their table's sequence, and every relation entry refers to an existing row. */
    ghost predicate Valid()
      reads this
    {
      && 1 <= nextUserId && 1 <= nextPlaylistId && 1 <= nextTrackId
      && (forall id :: id in users ==> 1 <= id < nextUserId)
      && (forall id :: id in playlists ==> 1 <= id < nextPlaylistId)
      && (forall id :: id in tracks ==> 1 <= id < nextTrackId)
      && (forall u, p :: u in users && p in users[u].playlists ==> p in playlists)
      && (forall l, t :: l in playlists && t in playlists[l].tracks ==> t in tracks)
    }

    constructor ()
      ensures Valid()
      ensures users == map[] && playlists == map[] && tracks == map[]
    {
      users, playlists, tracks := map[], map[], map[];
      nextUserId, nextPlaylistId, nextTrackId := 1, 1, 1;
    }

    /** Saving a loaded user whose playlist relation is now `list`. */
    method SaveUserPlaylists(user: Id, list: seq<Id>)
      requires Valid() && user in users
      requires forall p :: p in list ==> p in playlists
      modifies this`users
      ensures Valid()
      ensures users == old(users)[user := old(users)[user].(playlists := list)]
    {
      users := users[user := users[user].(playlists := list)];
    }

    /** Saving a loaded playlist whose track relation is now `list`. */
    method SavePlaylistTracks(playlist: Id, list: seq<Id>)
      requires Valid() && playlist in playlists
      requires forall t :: t in list ==> t in tracks
      modifies this`playlists
      ensures Valid()
      ensures playlists == old(playlists)[playlist := old(playlists)[playlist].(tracks := list)]
    {
      playlists := playlists[playlist := playlists[playlist].(tracks := list)];
    }

    /** `POST /auth`: 403 without both credentials, 401 when no user has both, else the first matching user's id. */
    method Auth(login: Option<string>, password: Option<string>) returns (status: int, id: Option<Id>)
      requires Valid()
      ensures status ==
        if !Given(login) || !Given(password) then Forbidden
        else if forall k :: k in users ==> !Matches(users[k], login.value, password.value) then Unauthorized
        else Ok
      ensures status == Ok <==> id.Some?
      ensures id.Some? ==> Given(login) && Given(password) && id.value in users
      ensures id.Some? ==> Matches(users[id.value], login.value, password.value)
      ensures id.Some? ==> forall k :: k in users && k < id.value ==> !Matches(users[k], login.value, password.value)
    {
      if !Given(login) || !Given(password) {
        return Forbidden, None;
      }
      id := FirstMatch(users, login.value, password.value, 0, nextUserId);
      status := if id.None? then Unauthorized else Ok;
    }

    /** `GET /user?id`: the user's username and avatar. */
    method GetUser(id: Option<Id>) returns (status: int, profile: Option<Profile>)
      ensures status == if id.None? then Forbidden else if id.value in users then Ok else NotFound
      ensures profile.Some? <==> status == Ok
      ensures status == Ok ==> profile.value == Profile(users[id.value].username, users[id.value].avatar)
    {
      if id.None? {
        return Forbidden, None;
      }
      if id.value !in users {
        return NotFound, None;
      }
      var user := users[id.value];
      status, profile := Ok, Some(Profile(user.username, user.avatar));
    }

    /** `GET /user/playlists?id`: the user's playlist relation, loaded, in list order. */
    method GetUserPlaylists(id: Option<Id>) returns (status: int, list: seq<PlaylistInfo>)
      requires Valid()
      ensures status == if id.None? then Forbidden else if id.value in users then Ok else NotFound
      ensures status != Ok ==> list == []
      ensures status == Ok ==> |list| == |users[id.value].playlists|
      ensures status == Ok ==> forall i :: 0 <= i < |list| ==>
        list[i].id == users[id.value].playlists[i] && list[i].id in playlists && list[i] == InfoOf(list[i].id, playlists[list[i].id])
    {
      if id.None? {
        return Forbidden, [];
      }
      if id.value !in users {
        return NotFound, [];
      }
      var ids := users[id.value].playlists;
      assert forall i :: 0 <= i < |ids| ==> ids[i] in ids;
      status, list := Ok, Infos(ids, playlists);
    }

    /** `GET /playlist?playlistId`: the playlist with its track relation loaded. */
    method GetPlaylist(playlistId: Option<Id>) returns (status: int, body: Option<PlaylistWithTracks>)
      requires Valid()
      ensures status == if playlistId.None? then Forbidden else if playlistId.value in playlists then Ok else NotFound
      ensures body.Some? <==> status == Ok
      ensures status == Ok ==> body.value.info == InfoOf(playlistId.value, playlists[playlistId.value])
      ensures status == Ok ==> |body.value.tracks| == |playlists[playlistId.value].tracks|
      ensures status == Ok ==> forall i :: 0 <= i < |body.value.tracks| ==>
        var t := body.value.tracks[i];
        t.id == playlists[playlistId.value].tracks[i] && t.id in tracks && t.url == tracks[t.id].url
    {
      if playlistId.None? {
        return Forbidden, None;
      }
      if playlistId.value !in playlists {
        return NotFound, None;
      }
      var playlist := playlists[playlistId.value];
      assert forall i :: 0 <= i < |playlist.tracks| ==> playlist.tracks[i] in playlist.tracks;
      var loaded := TrackInfos(playlist.tracks, tracks);
      status, body := Ok, Some(PlaylistWithTracks(InfoOf(playlistId.value, playlist), loaded));
    }

    /**
     * `GET /playlist/search?q`: 403 for an empty query or one with an apostrophe,
     * else exactly the public playlists whose title contains `q`, in id order.
     */
    method Search(q: Option<string>) returns (status: int, found: seq<PlaylistInfo>)
      requires Valid()
      ensures status == if !Given(q) || HasApostrophe(q.value) then Forbidden else Ok
      ensures status == Forbidden ==> found == []
      ensures status == Ok ==> forall i :: 0 <= i < |found| ==>
        found[i].id in playlists && found[i] == InfoOf(found[i].id, playlists[found[i].id]) && Listed(playlists[found[i].id], q.value)
      ensures status == Ok ==> forall id :: id in playlists && Listed(playlists[id], q.value) ==>
        exists i :: 0 <= i < |found| && found[i].id == id
      ensures forall i, j :: 0 <= i < j < |found| ==> found[i].id < found[j].id
    {
      if !Given(q) || HasApostrophe(q.value) {
        return Forbidden, [];
      }
      var ids := SearchIds(playlists, q.value, 0, nextPlaylistId);
      found := Infos(ids, playlists);
      status := Ok;
      forall id | id in playlists && Listed(playlists[id], q.value)
        ensures exists i :: 0 <= i < |found| && found[i].id == id
      {
        var i :| 0 <= i < |ids| && ids[i] == id;
        assert found[i].id == id;
      }
    }

    /** `POST /user`: 403 unless login, password and username are given; else a new row with exactly these fields. */
    method CreateUser(login: Option<string>, password: Option<string>, username: Option<string>, avatar: Option<string>)
      returns (status: int, id: Option<Id>)
      requires Valid()
      modifies this`users, this`nextUserId
      ensures Valid()
      ensures status == if Given(login) && Given(password) && Given(username) then Ok else Forbidden
      ensures status == Ok <==> id.Some?
      ensures id.Some? ==> id.value !in old(users) && id.value == old(nextUserId)
      ensures users ==
        if id.Some? then old(users)[id.value := User(login.value, password.value, username.value, avatar, [])]
        else old(users)
      ensures nextUserId == if id.Some? then old(nextUserId) + 1 else old(nextUserId)
    {
      if !Given(login) || !Given(password) || !Given(username) {
        return Forbidden, None;
      }
      var newId := nextUserId;
      users := users[newId := User(login.value, password.value, username.value, avatar, [])];
      nextUserId := nextUserId + 1;
      status, id := Ok, Some(newId);
    }

    /** `POST /playlist`: 403 unless title and thumbnail are given; else a new row with exactly these fields. */
    method CreatePlaylist(title: Option<string>, thumbnail: Option<string>, private: Option<bool>)
      returns (status: int, id: Option<Id>)
      requires Valid()
      modifies this`playlists, this`nextPlaylistId
      ensures Valid()
      ensures status == if Given(title) && Given(thumbnail) then Ok else Forbidden
      ensures status == Ok <==> id.Some?
      ensures id.Some? ==> id.value !in old(playlists) && id.value == old(nextPlaylistId)
      ensures playlists ==
        if id.Some? then old(playlists)[id.value := Playlist(title.value, thumbnail.value, private, [])]
        else old(playlists)
      ensures nextPlaylistId == if id.Some? then old(nextPlaylistId) + 1 else old(nextPlaylistId)
    {
      if !Given(title) || !Given(thumbnail) {
        return Forbidden, None;
      }
      var newId := nextPlaylistId;
      playlists := playlists[newId := Playlist(title.value, thumbnail.value, private, [])];
      nextPlaylistId := nextPlaylistId + 1;
      status, id := Ok, Some(newId);
    }

    /**
     * `POST /user/playlists/add`. The client sees 403 when a field is missing, 404
     * for an unknown user, else 200. The edit appends the playlist to the user's
     * list, with no duplicate check, only when both exist. The save still runs
     * after a 403, but with a missing id it writes back the list unchanged.
     */
    method AddUserPlaylist(userId: Option<Id>, playlistId: Option<Id>) returns (status: int)
      requires Valid()
      modifies this`users
      ensures Valid()
      ensures status ==
        if userId.None? || playlistId.None? then Forbidden
        else if userId.value !in old(users) then NotFound
        else Ok
      ensures status == Forbidden ==> users == old(users)
      ensures users ==
        if userId.Some? && userId.value in old(users) && playlistId.Some? && playlistId.value in playlists then
          var user := old(users)[userId.value];
          old(users)[userId.value := user.(playlists := user.playlists + [playlistId.value])]
        else old(users)
    {
      var sent: Option<int> := None;
      if userId.None? || playlistId.None? {
        // Source quirk: this branch replies 403 but does not return, so the
        // lookups and the save below still run.
        sent := Some(Forbidden);
      }
      var user := if userId.Some? && userId.value in users then Some(users[userId.value]) else None;
      // Source quirk: the lookup result is pushed without checking it, so an
      // unknown playlist becomes a null entry in the in-memory list.
      var playlist := if playlistId.Some? && playlistId.value in playlists then Some(playlistId.value) else None;
      if user.None? {
        return Reply(sent, NotFound);
      }
      var saved := Saved(Entries(user.value.playlists) + [playlist]);
      PushThenSave(user.value.playlists, playlist);
      assert forall p :: p in saved ==> p in playlists;
      SaveUserPlaylists(userId.value, saved);
      status := Reply(sent, Ok);
    }

    /**
     * `POST /user/playlists/remove`. The client sees 403 when a field is missing, 404
     * for an unknown user, else 200. A known user's list loses every entry equal to
     * `playlistId`. The save still runs after a 403, but with a missing id it
     * writes back the list unchanged.
     */
    method RemoveUserPlaylist(userId: Option<Id>, playlistId: Option<Id>) returns (status: int)
      requires Valid()
      modifies this`users
      ensures Valid()
      ensures status ==
        if userId.None? || playlistId.None? then Forbidden
        else if userId.value !in old(users) then NotFound
        else Ok
      ensures status == Forbidden ==> users == old(users)
      ensures users ==
        if userId.Some? && userId.value in old(users) then
          var user := old(users)[userId.value];
          old(users)[userId.value := user.(playlists := Without(user.playlists, playlistId))]
        else old(users)
    {
      var sent: Option<int> := None;
      if userId.None? || playlistId.None? {
        // Source quirk: this branch replies 403 but does not return.
        sent := Some(Forbidden);
      }
      if userId.None? || userId.value !in users {
        return Reply(sent, NotFound);
      }
      var user := users[userId.value];
      WithoutMembers(user.playlists, playlistId);
      if playlistId.None? {
        WithoutAbsent(user.playlists, playlistId);
        assert user.(playlists := Without(user.playlists, playlistId)) == user;
      }
      SaveUserPlaylists(userId.value, Without(user.playlists, playlistId));
      status := Reply(sent, Ok);
    }

    /**
     * `POST /playlist/add`: 403 when `url` or `playlistId` is missing. Otherwise the
     * track is saved first, and then appended to the playlist's list (200) or,
     * for an unknown playlist, left unattached (404).
     */
    method AddTrack(url: Option<string>, playlistId: Option<Id>) returns (status: int)
      requires Valid()
      modifies this`tracks, this`nextTrackId, this`playlists
      ensures Valid()
      ensures status ==
        if !Given(url) || playlistId.None? then Forbidden
        else if playlistId.value in old(playlists) then Ok
        else NotFound
      ensures status == Forbidden ==> tracks == old(tracks) && nextTrackId == old(nextTrackId)
      ensures status != Forbidden ==>
        && old(nextTrackId) !in old(tracks)
        && tracks == old(tracks)[old(nextTrackId) := Track(url.value)]
        && nextTrackId == old(nextTrackId) + 1
      ensures playlists ==
        if status == Ok then
          var playlist := old(playlists)[playlistId.value];
          old(playlists)[playlistId.value := playlist.(tracks := playlist.tracks + [old(nextTrackId)])]
        else old(playlists)
    {
      if !Given(url) || playlistId.None? {
        return Forbidden;
      }
      var track := nextTrackId;
      tracks := tracks[track := Track(url.value)];
      nextTrackId := nextTrackId + 1;
      if playlistId.value !in playlists {
        return NotFound;
      }
      var playlist := playlists[playlistId.value];
      var saved := Saved(Entries(playlist.tracks) + [Some(track)]);
      PushThenSave(playlist.tracks, Some(track));
      assert forall t :: t in saved ==> t in tracks;
      SavePlaylistTracks(playlistId.value, saved);
      status := Ok;
    }

    /**
     * `POST /playlist/remove`: 403 when a field is missing, 404 for an unknown
     * playlist, else 200 with every entry equal to `trackId` gone from its list.
     */
    method RemoveTrack(trackId: Option<Id>, playlistId: Option<Id>) returns (status: int)
      requires Valid()
      modifies this`playlists
      ensures Valid()
      ensures status ==
        if trackId.None? || playlistId.None? then Forbidden
        else if playlistId.value in old(playlists) then Ok
        else NotFound
      ensures playlists ==
        if status == Ok then
          var playlist := old(playlists)[playlistId.value];
          old(playlists)[playlistId.value := playlist.(tracks := Without(playlist.tracks, trackId))]
        else old(playlists)
    {
      if trackId.None? || playlistId.None? {
        return Forbidden;
      }
      if playlistId.value !in playlists {
        return NotFound;
      }
      var playlist := playlists[playlistId.value];
      WithoutMembers(playlist.tracks, trackId);
      SavePlaylistTracks(playlistId.value, Without(playlist.tracks, trackId));
      status := Ok;
    }

    /**
     * `POST /playlist/drop`: 403 when `playlistId` is missing, else 200 whether or
     * not the row existed. Deleting the row also deletes its join-table rows, so
     * the id leaves every user's list; tracks stay.
     */
    method DropPlaylist(playlistId: Option<Id>) returns (status: int)
      requires Valid()
      modifies this`playlists, this`users
      ensures Valid()
      ensures status == if playlistId.Some? then Ok else Forbidden
      ensures playlists == if playlistId.Some? then old(playlists) - {playlistId.value} else old(playlists)
      ensures playlistId.None? ==> users == old(users)
      ensures playlistId.Some? ==> users.Keys == old(users).Keys
      ensures playlistId.Some? ==> forall u :: u in users ==>
        users[u] == old(users)[u].(playlists := Without(old(users)[u].playlists, playlistId))
    {
      if playlistId.None? {
        return Forbidden;
      }
      playlists := playlists - {playlistId.value};
      forall u | u in users {
        WithoutMembers(users[u].playlists, playlistId);
      }
      users := map u | u in users :: users[u].(playlists := Without(users[u].playlists, playlistId));
      status := Ok;
    }
  }
}
