/**
 * The three persisted record types (User, Playlist, Track) and the shapes the
 * handlers send back. A record carries no id: the store keys each table by id.
 */
module Entities {
  import opened Wrappers

  /** A generated primary key; the store hands them out from 1 upwards. */
  type Id = nat

  /** A user row together with its many-to-many playlist relation, in list order. */
  datatype User = User(
    login: string,
    password: string,
    username: string,
    avatar: Option<string>,
    playlists: seq<Id>)

  /** A playlist row together with its many-to-many track relation, in list order. */
  datatype Playlist = Playlist(
    title: string,
    thumbnail: string,
    private: Option<bool>,
    tracks: seq<Id>)

  datatype Track = Track(url: string)

  /** The body of GET /user. */
  datatype Profile = Profile(username: string, avatar: Option<string>)

  /** A playlist row as sent to a client, without its tracks. */
  datatype PlaylistInfo = PlaylistInfo(id: Id, title: string, thumbnail: string, private: Option<bool>)

  datatype TrackInfo = TrackInfo(id: Id, url: string)

  /** The body of GET /playlist: the row with its track relation loaded. */
  datatype PlaylistWithTracks = PlaylistWithTracks(info: PlaylistInfo, tracks: seq<TrackInfo>)

  function InfoOf(id: Id, p: Playlist): PlaylistInfo
  {
    PlaylistInfo(id, p.title, p.thumbnail, p.private)
  }
}
