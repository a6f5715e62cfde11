/**
 * The upload endpoint (`POST /file`), its MIME filter and the paths it moves files
 * to, and the removal endpoint (`POST /file/remove`). The static directory is a
 * set of paths; renames and removals are set updates.
 */
module Files {
  import opened Wrappers
  import opened Http

  /** The part of a multipart upload the handlers look at. */
  datatype FilePart = FilePart(mimetype: string)

  /** The JSON body of a successful upload. */
  datatype Uploaded = Uploaded(scope: string, id: string)

  /** The upload filter: `mimetype.startsWith("image")`. */
  predicate IsImage(mimetype: string)
  {
    |mimetype| >= 5 && mimetype[..5] == "image"
  }

  /** Accepted exactly when the MIME type begins with "image". */
  lemma ImageMeansPrefix(mimetype: string)
    ensures IsImage(mimetype) <==> exists rest :: mimetype == "image" + rest
  {
    if IsImage(mimetype) {
      assert mimetype == "image" + mimetype[5..];
    }
  }

  /** The scope test shared by both file endpoints: exactly "user" or exactly "playlist". */
  predicate ValidScope(scope: Option<string>)
  {
    scope == Some("user") || scope == Some("playlist")
  }

  /** The first '/'-separated field of `s`. */
  function UpToSlash(s: string): (r: string)
    ensures |r| <= |s| && r == s[..|r|]
    ensures '/' !in r
    ensures |r| < |s| ==> s[|r|] == '/'
  {
    if s == [] || s[0] == '/' then [] else [s[0]] + UpToSlash(s[1..])
  }

  /**
   * `mimetype.split("/")[1]` as it lands in a template string: the second
   * '/'-separated field, or the text "undefined" when there is no '/'.
   */
  function Subtype(mimetype: string): string
  {
    var kind := UpToSlash(mimetype);
    if |kind| == |mimetype| then "undefined" else UpToSlash(mimetype[|kind| + 1..])
  }

  lemma {:induction false} UpToSlashOf(kind: string, rest: string)
    requires '/' !in kind
    ensures UpToSlash(kind + rest) == kind + UpToSlash(rest)
  {
    if kind != [] {
      assert (kind + rest)[0] == kind[0];
      assert (kind + rest)[1..] == kind[1..] + rest;
      UpToSlashOf(kind[1..], rest);
      assert kind == [kind[0]] + kind[1..];
    } else {
      assert kind + rest == rest;
    }
  }

  /** The whole of `s` is its first field when `s` has no '/'. */
  lemma UpToSlashWhole(s: string)
    requires '/' !in s
    ensures UpToSlash(s) == s
  {
    UpToSlashOf(s, []);
    assert s + [] == s;
  }

  /** After a first field with no '/', the subtype is the first field of the rest. */
  lemma SubtypeAfter(kind: string, rest: string)
    requires '/' !in kind
    ensures Subtype(kind + "/" + rest) == UpToSlash(rest)
  {
    var m := kind + "/" + rest;
    assert m == kind + ("/" + rest);
    UpToSlashOf(kind, "/" + rest);
    assert UpToSlash("/" + rest) == [];
    assert m[|kind| + 1..] == rest;
  }

  /** A MIME type "kind/sub" (no further '/') has subtype `sub`. */
  lemma SubtypeOf(kind: string, sub: string)
    requires '/' !in kind && '/' !in sub
    ensures Subtype(kind + "/" + sub) == sub
  {
    SubtypeAfter(kind, sub);
    UpToSlashWhole(sub);
  }

  /** Further '/'-separated fields are dropped: "image/a/b" has subtype "a". */
  lemma SubtypeStopsAtSlash(kind: string, sub: string, more: string)
    requires '/' !in kind && '/' !in sub
    ensures Subtype(kind + "/" + sub + "/" + more) == sub
  {
    var tail := sub + "/" + more;
    assert kind + "/" + sub + "/" + more == kind + "/" + tail;
    SubtypeAfter(kind, tail);
    assert tail == sub + ("/" + more);
    UpToSlashOf(sub, "/" + more);
    assert UpToSlash("/" + more) == [];
  }

  /** A MIME type without '/' (such as "image") yields the extension "undefined". */
  lemma SubtypeUndefined(mimetype: string)
    requires '/' !in mimetype
    ensures Subtype(mimetype) == "undefined"
  {
    UpToSlashWhole(mimetype);
  }

  /** Where the upload middleware stores an accepted file under its generated name. */
  function TempPath(filename: string): string
  {
    "./static/" + filename
  }

  /** `./static/<scope>/<name>`, the path the removal endpoint deletes. */
  function ScopedPath(scope: string, name: string): string
  {
    "./static/" + scope + "/" + name
  }

  /** Where a successful upload moves the file: the generated name plus the MIME subtype as extension. */
  function UploadPath(scope: string, filename: string, mimetype: string): string
  {
    ScopedPath(scope, filename + "." + Subtype(mimetype))
  }

  /**
   * The id an upload returns names no file: removing `<scope>/<id>` does not reach
   * `<scope>/<id>.<subtype>`, where the upload put it.
   */
  lemma UploadedIdLacksExtension(scope: string, filename: string, mimetype: string)
    ensures ScopedPath(scope, filename) != UploadPath(scope, filename, mimetype)
    ensures UploadPath(scope, filename, mimetype) == ScopedPath(scope, filename) + "." + Subtype(mimetype)
  {
    assert |UploadPath(scope, filename, mimetype)| == |ScopedPath(scope, filename)| + 1 + |Subtype(mimetype)|;
  }

  /** The `static` directory as the set of paths in it. */
  class StaticDir {
    var paths: set<string>

    constructor (paths: set<string>)
      ensures this.paths == paths
    {
      this.paths := paths;
    }

    /**
     * `POST /file` with the multipart part `file`, the name the storage engine
     * generated for it, and the body field `scope`.
     */
    method Upload(file: Option<FilePart>, filename: string, scope: Option<string>)
      returns (status: int, reply: Option<Uploaded>)
      modifies this
      ensures var accepted := file.Some? && IsImage(file.value.mimetype);
        status == if accepted && ValidScope(scope) then Ok else Forbidden
      ensures status == Ok ==> reply == Some(Uploaded(scope.value, filename))
      ensures status != Ok ==> reply == None
      ensures paths ==
        if !(file.Some? && IsImage(file.value.mimetype)) then old(paths)
        else if !ValidScope(scope) then old(paths) - {TempPath(filename)}
        else old(paths) - {TempPath(filename)} + {UploadPath(scope.value, filename, file.value.mimetype)}
    {
      // The filter runs before the handler: a rejected part is neither stored nor seen.
      var accepted := if file.Some? && IsImage(file.value.mimetype) then file else None;
      if accepted.Some? {
        paths := paths + {TempPath(filename)};
      }
      if accepted.None? {
        return Forbidden, None;
      }
      if scope != Some("user") && scope != Some("playlist") {
        paths := paths - {TempPath(filename)};
        return Forbidden, None;
      }
      paths := paths - {TempPath(filename)} + {UploadPath(scope.value, filename, accepted.value.mimetype)};
      status, reply := Ok, Some(Uploaded(scope.value, filename));
    }

    /**
     * `POST /file/remove` with body fields `scope` and `id`. Success does not depend
     * on whether the file was there.
     */
    method Remove(scope: Option<string>, id: Option<string>) returns (status: int)
      modifies this
      ensures status == if ValidScope(scope) && Given(id) then Ok else Forbidden
      ensures paths == if status == Ok then old(paths) - {ScopedPath(scope.value, id.value)} else old(paths)
      ensures status == Ok ==> ScopedPath(scope.value, id.value) !in paths
    {
      if scope != Some("user") && scope != Some("playlist") {
        return Forbidden;
      }
      if id.None? || id.value == "" {
        return Forbidden;
      }
      paths := paths - {ScopedPath(scope.value, id.value)};
      status := Ok;
    }
  }
}
