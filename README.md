# Music playlist backend: request handlers over a relational store

This project models the route handlers of a REST backend for a music-playlist
application (`app/src/index.ts`). Users log in with a login and a password, own
playlists, and playlists hold tracks. Images for users and playlists are uploaded
into a `static` directory, each in the folder of its scope (`user` or `playlist`).

The model has these parts:

- `Entities` (`entities.dfy`): the records `User`, `Playlist` and `Track`, and the
  bodies the handlers send back. A record's relation (a user's playlists, a
  playlist's tracks) is a list of ids.
- `Relations` (`relations.dfy`): the edits a handler makes to a loaded relation.
  `Without` is the `filter` by id. The add handlers use `Entries`/`Saved` for the
  push followed by `save`, where a null entry saves nothing.
- `Text` (`text.dfy`): substring containment for the search condition, and the
  apostrophe guard.
- `Files` (`files.dfy`): the upload filter, the scope test, the paths, and a
  `StaticDir` class whose `paths` set stands for the directory. It has the upload
  and removal endpoints.
- `Store` (`store.dfy`): a `Store` class with the three id-keyed tables, one id
  sequence per table, and one method per endpoint that touches the database.
  `Valid()` is the store invariant: ids lie below their sequence, and every
  relation entry refers to an existing row. Every method preserves it.
- `Scenarios` (`scenarios.dfy`): request sequences a client can send, and what
  the contracts let it conclude about the replies.

Every handler returns its status code (200, 401, 403 or 404) and, where the
endpoint sends one, a payload. Request fields are `Option` values. A string field
passes the handlers' `!field` test only when it is present and non-empty. Each
table method's `modifies` clause names the only fields the handler may change, so
"nothing else changes" is part of its contract.

Behaviour taken from the code as written:

- `/user/playlists/add` and `/user/playlists/remove` send 403 for a missing field
  but do not return (`app/src/index.ts:269`, `:314`). The model keeps this control
  flow: the lookups and the save still run, and the client sees the first status
  sent. A missing id matches no row here, so after a 403 the save writes back
  an unchanged list. Both methods state that a 403 leaves `users` unchanged. The
  two methods carry comments at this point.
- `/user/playlists/add` pushes the result of the playlist lookup without checking
  it (`app/src/index.ts:278-283`). For an unknown playlist, the reply is 200 and
  the user's list is unchanged.
- `/playlist/add` saves the track before it looks up the playlist, so on 404 the
  new track exists but belongs to no playlist.
- The upload reply's `id` is the generated name without the extension. The file
  is stored as `<id>.<subtype>`. `/file/remove` with that id and scope deletes
  `./static/<scope>/<id>`, which is not the uploaded file.
  `Scenarios.UploadThenRemove` proves the file stays. The OpenAPI annotations
  (`app/src/index.ts:84-86`, `119-126`) describe this id as the one to remove the
  file with. They also promise a 404 for a missing file (`:125-126`), which the
  code never sends (`:132-133`). The model follows the code.
- `/auth` returns the first user with these credentials. Logins are not unique, so
  this is the user just created only when no older user has the same login and
  password (`Scenarios.CreateThenAuth`).
- Adding a playlist that a user already has appends it a second time. "The list
  includes it exactly once" holds only when it was not there before.
- `split("/")[1]` of a MIME type with no `/` is `undefined`. A file of type
  `image` is therefore stored with the extension `undefined`
  (`Files.SubtypeUndefined`).

## Model

| member | source | states |
|---|---|---|
| `Relations.Without` | app/src/index.ts:325 | the filtered list is no longer than the old one, and as long when the id is missing |
| `Relations.WithoutMembers` | app/src/index.ts:325 | the filtered list holds exactly the entries of the old list that differ from the id; a missing id matches nothing |
| `Relations.WithoutConcat` | app/src/index.ts:514 | filtering distributes over concatenation, so the entries that remain keep their relative order |
| `Relations.WithoutCounts` | app/src/index.ts:325 | each other id keeps its number of occurrences, and the removed id has none left |
| `Relations.WithoutAbsent` | app/src/index.ts:314-325 | removing an id that no entry carries (including a missing id) leaves the list unchanged |
| `Relations.WithoutIdempotent` | app/src/index.ts:312-328 | removing the same id twice gives the same list as removing it once |
| `Relations.WithoutCommutes` | app/src/index.ts:502-517 | two removals by different ids give the same list in either order |
| `Relations.AppendThenWithout` | app/src/index.ts:267-328 | adding an id and then removing it gives the old list without that id, and the id is absent |
| `Relations.PushThenSave` | app/src/index.ts:278-284 | push then save appends a found record at the end with no duplicate check; a null push leaves the saved list unchanged |
| `Text.Contains` | app/src/index.ts:602 | true exactly when the query occurs at some position of the title |
| `Files.ImageMeansPrefix` | app/src/index.ts:23-25 | the upload filter accepts exactly the MIME types that begin with "image" |
| `Files.UpToSlash` | app/src/index.ts:98 | the first `/`-separated field is a prefix with no `/`, followed by `/` or the end of the string |
| `Files.SubtypeOf` | app/src/index.ts:98 | the extension of a MIME type `kind/sub` is `sub` |
| `Files.SubtypeStopsAtSlash` | app/src/index.ts:98 | in `kind/sub/more` only `sub` becomes the extension |
| `Files.SubtypeUndefined` | app/src/index.ts:98 | a MIME type with no `/` yields the extension `undefined` |
| `Files.UploadedIdLacksExtension` | app/src/index.ts:96-104 | the stored path is the scope path of the returned id plus `.subtype`, so it differs from the path `/file/remove` deletes for that id |
| `Files.StaticDir.Upload` | app/src/index.ts:88-105 | 403 without an accepted image file or with a scope other than exactly user or playlist (the temporary file is removed in that case); otherwise the file moves to `./static/<scope>/<name>.<subtype>` and the reply is `{scope, id: name}` |
| `Files.StaticDir.Remove` | app/src/index.ts:128-134 | 403 for an invalid scope or a missing id; otherwise 200 whether or not the file existed, and `./static/<scope>/<id>` is gone |
| `Store.FirstMatch` | app/src/index.ts:163-171 | returns the smallest id in range whose user matches both login and password, or none when no user in range matches |
| `Store.SearchIds` | app/src/index.ts:600-603 | returns, in strictly increasing order, exactly the ids in range of public playlists whose title contains the query |
| `Store.Store.Auth` | app/src/index.ts:160-172 | 403 unless both login and password are given; 401 when no user matches both; otherwise 200 with the id of the first matching user |
| `Store.Store.GetUser` | app/src/index.ts:192-209 | 403 without an id, 404 for an unknown one, otherwise the user's username and avatar |
| `Store.Store.GetUserPlaylists` | app/src/index.ts:229-241 | 403 or 404 as for GET /user; otherwise one playlist per entry of the user's relation, in list order |
| `Store.Store.GetPlaylist` | app/src/index.ts:565-577 | 403 without an id, 404 for an unknown one, otherwise the playlist with each of its tracks in list order |
| `Store.Store.Search` | app/src/index.ts:597-605 | 403 for an empty query or one containing an apostrophe; otherwise exactly the non-private playlists whose title contains the query, each once, in id order |
| `Store.Store.CreateUser` | app/src/index.ts:368-381 | 403 if login, password or username is missing; otherwise a row under a fresh id with exactly the given fields and no playlists, and that id is returned |
| `Store.Store.CreatePlaylist` | app/src/index.ts:418-431 | 403 if title or thumbnail is missing; otherwise a row under a fresh id with exactly the given fields and no tracks, and that id is returned |
| `Store.Store.AddUserPlaylist` | app/src/index.ts:267-286 | 403 for a missing field, 404 for an unknown user, else 200; a 403 leaves every list unchanged; otherwise the user's list gains the playlist at its end only when both exist; no other list changes |
| `Store.Store.RemoveUserPlaylist` | app/src/index.ts:312-328 | 403 for a missing field, 404 for an unknown user, else 200; a 403 leaves every list unchanged; otherwise a known user's list becomes `Without(list, playlistId)`; no other list changes |
| `Store.Store.AddTrack` | app/src/index.ts:457-476 | 403 for a missing field; otherwise a new track under a fresh id, then 404 for an unknown playlist or 200 with the track appended to its list |
| `Store.Store.RemoveTrack` | app/src/index.ts:502-517 | 403 for a missing field, 404 for an unknown playlist, else 200 with `Without(tracks, trackId)` as its list; no other playlist changes |
| `Store.Store.DropPlaylist` | app/src/index.ts:540-545 | 403 without an id; otherwise 200 whether or not the row existed, with the row gone and the id removed from every user's list |
| `Scenarios.CreateThenFetchUser` | app/src/index.ts:192-209 | fetching a user just created returns the username and avatar it was created with |
| `Scenarios.CreateThenAuth` | app/src/index.ts:160-172 | authenticating after creating a user returns a matching user no newer than it, and the new user when no older one has these credentials |
| `Scenarios.AuthWrongPassword` | app/src/index.ts:169 | 401 when no user has that password for that login |
| `Scenarios.AddThenRemoveUserPlaylist` | app/src/index.ts:229-328 | after an add the listed playlists end with the added one; after the remove it is gone and the list is the old list without it |
| `Scenarios.RemoveUserPlaylistTwice` | app/src/index.ts:323-327 | a second removal again replies 200 and leaves the store as the first left it |
| `Scenarios.AddTrackThenRemove` | app/src/index.ts:457-517 | the fetched playlist shows a track with the added URL; removing that track id restores the old list |
| `Scenarios.DropThenFetch` | app/src/index.ts:540-577 | after a drop, fetching the playlist gives 404 and no user lists it |
| `Scenarios.UploadThenRemove` | app/src/index.ts:88-134 | an upload and two removals by the returned id all reply 200, yet the uploaded file is still in the directory |

## Left out

- Server wiring is not modelled: the Express app, the JSON body limit, static file serving, OpenAPI generation and `listen` (`app/src/index.ts:11-51`, `607-610`).
- The generated upload name (`Date.now()` plus a random number) is a parameter of `Upload`.
- The filesystem calls are fire-and-forget and their errors are swallowed. The model treats each rename and removal as a set update that succeeds. Paths are compared as strings, with no normalisation of `..`.
- `app/src/data-source.ts` is connection configuration and is not part of this model.
- The ORM's internals are not modelled: relation loading, schema sync, and how the join table stores relations. A relation is kept as the list the handler saved, with its duplicates and its order. The join table's composite key, which would collapse a duplicate, and the unspecified order of a reloaded relation are left out.
- Deleting a playlist also deletes its join-table rows, because the foreign keys of the join tables cascade. The model deletes the playlist's id from every user's list.
- Row order is taken to be ascending id. `/auth` takes the first row of `findBy`, and search returns rows in table order.
- A lookup by a missing id finds nothing. The ORM drops an `undefined` where-condition, which would match an arbitrary row; that is not modelled.
- A missing `avatar` or `private` is stored as absent (`None`). The database rejects such an insert, because the columns are declared NOT NULL; that rejection is not modelled.
- Concurrency is not modelled. Each handler is one atomic step, so the race between concurrent read-modify-write edits does not arise.
- Search uses plain substring containment, not the SQL `LIKE` operator. The unescaped `%` and `_` wildcards and the query built by string interpolation fall outside the model.
- There is one id type, so JavaScript type coercion is left out: `parseInt` of query strings, `!==` between a string id and a numeric id, and the falsiness of a numeric id 0.
- Unhandled promise rejections are not modelled. On the code path after a 403 in `/user/playlists/add` and `/user/playlists/remove`, the second `sendStatus` throws (`app/src/index.ts:281`, `285`, `323`, `327`). A query that fails in a `.then` chain with no `.catch` rejects the same way (`:168`, `199`, `378`, `428`). Under Node's defaults such a rejection can end the process, possibly before the un-awaited `save` (`:284`, `326`) completes. The model treats each handler as finishing normally and does not capture what becomes of the server afterwards.
- `GET /user`, `GET /user/playlists` and `GET /playlist` reply with `res.send(404)` (`app/src/index.ts:206`, `240`, `576`). The model takes this as status 404, which is what Express 4's deprecated `res.send(status)` does. Under Express 5 it would be status 200 with the body `404`.
- Multipart details are left out: field order in the upload stream, and parts under another name than `file`.
