/**
 * Request sequences a client can send, with what the handlers' contracts let it
 * conclude about the replies.
 */
module Scenarios {
  import opened Wrappers
  import opened Entities
  import opened Http
  import opened Relations
  import opened Files
  import opened Store

  /** Creating a user and fetching it by the returned id gives back its username and avatar. */
  method CreateThenFetchUser(s: Store, login: string, password: string, username: string, avatar: Option<string>)
    returns (id: Id, profile: Profile)
    requires s.Valid() && login != "" && password != "" && username != ""
    modifies s
    ensures s.Valid() && id !in old(s.users) && id in s.users
    ensures profile == Profile(username, avatar)
  {
    var created, newId := s.CreateUser(Some(login), Some(password), Some(username), avatar);
    var status, fetched := s.GetUser(newId);
    id, profile := newId.value, fetched.value;
  }

  /**
   * Authenticating right after creating a user returns a user with these
   * credentials; it is the new one unless an older user has the same ones.
   */
  method CreateThenAuth(s: Store, login: string, password: string, username: string)
    returns (created: Id, authenticated: Id)
    requires s.Valid() && login != "" && password != "" && username != ""
    modifies s
    ensures authenticated in s.users && Matches(s.users[authenticated], login, password)
    ensures authenticated <= created
    ensures (forall k :: k in old(s.users) ==> !Matches(old(s.users)[k], login, password)) ==> authenticated == created
  {
    var status, newId := s.CreateUser(Some(login), Some(password), Some(username), None);
    created := newId.value;
    assert Matches(s.users[created], login, password);
    var authStatus, found := s.Auth(Some(login), Some(password));
    assert created in s.users && Matches(s.users[created], login, password);
    authenticated := found.value;
  }

  /** A wrong password is refused with 401 when no user has that password for the login. */
  method AuthWrongPassword(s: Store, login: string, wrong: string) returns (status: int)
    requires s.Valid() && login != "" && wrong != ""
    requires forall k :: k in s.users && s.users[k].login == login ==> s.users[k].password != wrong
    ensures status == Unauthorized
  {
    var id;
    status, id := s.Auth(Some(login), Some(wrong));
  }

  /** After adding a playlist the user's list ends with it; after removing it, it is gone and the rest is as before the add. */
  method AddThenRemoveUserPlaylist(s: Store, user: Id, playlist: Id) returns (afterAdd: seq<PlaylistInfo>)
    requires s.Valid() && user in s.users && playlist in s.playlists
    modifies s
    ensures s.Valid() && user in s.users
    ensures |afterAdd| == |old(s.users)[user].playlists| + 1 && afterAdd[|afterAdd| - 1].id == playlist
    ensures s.users[user].playlists == Without(old(s.users)[user].playlists, Some(playlist))
    ensures playlist !in s.users[user].playlists
  {
    ghost var before := s.users[user].playlists;
    var added := s.AddUserPlaylist(Some(user), Some(playlist));
    var listed;
    listed, afterAdd := s.GetUserPlaylists(Some(user));
    var removed := s.RemoveUserPlaylist(Some(user), Some(playlist));
    AppendThenWithout(before, playlist);
  }

  /** A second removal of the same playlist replies 200 again and changes nothing. */
  method RemoveUserPlaylistTwice(s: Store, user: Id, playlist: Id) returns (first: int, second: int)
    requires s.Valid() && user in s.users
    modifies s
    ensures first == Ok && second == Ok && s.Valid()
    ensures s.users == old(s.users)[user := old(s.users)[user].(playlists := Without(old(s.users)[user].playlists, Some(playlist)))]
  {
    first := s.RemoveUserPlaylist(Some(user), Some(playlist));
    ghost var once := s.users;
    second := s.RemoveUserPlaylist(Some(user), Some(playlist));
    WithoutIdempotent(old(s.users)[user].playlists, Some(playlist));
    assert s.users == once;
  }

  /** Adding a track by URL and fetching the playlist shows a track with that URL; removing it by id excludes it. */
  method AddTrackThenRemove(s: Store, playlist: Id, url: string) returns (track: Id, shown: PlaylistWithTracks)
    requires s.Valid() && playlist in s.playlists && url != ""
    modifies s
    ensures s.Valid() && playlist in s.playlists && track in s.tracks
    ensures exists i :: 0 <= i < |shown.tracks| && shown.tracks[i] == TrackInfo(track, url)
    ensures track !in s.playlists[playlist].tracks
    ensures s.playlists[playlist].tracks == old(s.playlists)[playlist].tracks
  {
    track := s.nextTrackId;
    ghost var before := s.playlists[playlist].tracks;
    assert track !in s.tracks;
    assert track !in s.playlists[playlist].tracks;
    var added := s.AddTrack(Some(url), Some(playlist));
    var fetched, body := s.GetPlaylist(Some(playlist));
    shown := body.value;
    assert shown.tracks[|shown.tracks| - 1] == TrackInfo(track, url);
    var removed := s.RemoveTrack(Some(track), Some(playlist));
    AppendThenWithout(before, track);
    WithoutAbsent(before, Some(track));
  }

  /** After a drop the playlist is not found, and no user lists it. */
  method DropThenFetch(s: Store, playlist: Id) returns (status: int)
    requires s.Valid()
    modifies s
    ensures status == NotFound
    ensures forall u :: u in s.users ==> playlist !in s.users[u].playlists
  {
    var dropped := s.DropPlaylist(Some(playlist));
    var body;
    status, body := s.GetPlaylist(Some(playlist));
  }

  /**
   * Removing an upload by the id it returned replies 200 twice but leaves the
   * uploaded file in place: the id lacks the extension the file was stored with.
   */
  method UploadThenRemove(dir: StaticDir, filename: string, mimetype: string, scope: string)
    returns (uploaded: int, first: int, second: int)
    requires IsImage(mimetype) && ValidScope(Some(scope)) && filename != ""
    modifies dir
    ensures uploaded == Ok && first == Ok && second == Ok
    ensures UploadPath(scope, filename, mimetype) in dir.paths
  {
    var reply;
    uploaded, reply := dir.Upload(Some(FilePart(mimetype)), filename, Some(scope));
    first := dir.Remove(Some(scope), Some(reply.value.id));
    second := dir.Remove(Some(scope), Some(reply.value.id));
    UploadedIdLacksExtension(scope, filename, mimetype);
  }
}
