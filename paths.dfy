/** POSIX paths as pathlib sees them, and the containment check the download
    and media routes of apphub/app/main.py apply before handing a stored path
    to the web server through `X-Accel-Redirect`. Resolution collapses `..`
    lexically; symbolic links are not modelled. */
module Paths {
  import opened Text
  import opened Http

  /** A `PurePosixPath`: absolute or relative, and its parts. */
  datatype Path = Path(absolute: bool, parts: seq<string>)

  /** What pathlib keeps as a part: never empty, never ".", never holding "/". */
  predicate IsPart(p: string) {
    p != "" && p != "." && '/' !in p
  }

  predicate WellFormed(p: Path) {
    forall i :: 0 <= i < |p.parts| ==> IsPart(p.parts[i])
  }

  /** Parts of a resolved path: in addition, no "..". */
  predicate Canonical(parts: seq<string>) {
    forall i :: 0 <= i < |parts| ==> IsPart(parts[i]) && parts[i] != ".."
  }

  /** The pieces between slashes that pathlib keeps: empty pieces (repeated
      or trailing slashes) and "." disappear, ".." stays. */
  function KeepParts(pieces: seq<string>): (parts: seq<string>)
    requires forall i :: 0 <= i < |pieces| ==> '/' !in pieces[i]
    ensures forall i :: 0 <= i < |parts| ==> IsPart(parts[i])
    ensures (forall i :: 0 <= i < |pieces| ==> IsPart(pieces[i])) ==> parts == pieces
    decreases |pieces|
  {
    if pieces == [] then []
    else if pieces[0] == "" || pieces[0] == "." then KeepParts(pieces[1..])
    else [pieces[0]] + KeepParts(pieces[1..])
  }

  /** `PurePosixPath(s)`. */
  function ParsePath(s: string): (p: Path)
    ensures WellFormed(p)
    ensures p.absolute <==> StartsWith(s, "/")
  {
    Path(StartsWith(s, "/"), KeepParts(Split(s, '/')))
  }

  /** `str(p)`. */
  function PathText(p: Path): string {
    if p.absolute then "/" + Join(p.parts, '/')
    else if p.parts == [] then "."
    else Join(p.parts, '/')
  }

  /** Printing a path and parsing it again gives the same path. */
  lemma PathTextRoundTrip(p: Path)
    requires WellFormed(p)
    ensures ParsePath(PathText(p)) == p
  {
    if p.parts != [] {
      SplitJoin(p.parts, '/');
    }
    if p.absolute {
      var rest := Join(p.parts, '/');
      assert "/" + rest == "" + ['/'] + rest;
      SplitConcat("", rest, '/');
      assert Split("", '/') == [""];
      if p.parts == [] {
        assert Split(rest, '/') == [""];
      }
      assert KeepParts([""] + Split(rest, '/')) == KeepParts(Split(rest, '/')) by {
        assert ([""] + Split(rest, '/'))[1..] == Split(rest, '/');
      }
    } else if p.parts == [] {
      assert Split(".", '/') == ["."];
      assert KeepParts(["."]) == KeepParts([]);
    }
  }

  /** `p / q`: an absolute `q` replaces `p`, otherwise its parts are appended. */
  function Div(p: Path, q: Path): (r: Path)
    ensures WellFormed(p) && WellFormed(q) ==> WellFormed(r)
  {
    if q.absolute then q else Path(p.absolute, p.parts + q.parts)
  }

  /** One step of resolution: ".." drops the last part (and stays at "/"),
      any other part is appended. */
  function Step(stack: seq<string>, part: string): seq<string> {
    if part == ".." then (if stack == [] then [] else stack[..|stack| - 1])
    else stack + [part]
  }

  /** `..`-collapsing of an absolute path's parts, left to right. */
  function Collapse(parts: seq<string>): (r: seq<string>)
    requires forall i :: 0 <= i < |parts| ==> IsPart(parts[i])
    ensures Canonical(r)
    ensures |r| <= |parts|
    decreases |parts|
  {
    if parts == [] then []
    else Step(Collapse(parts[..|parts| - 1]), parts[|parts| - 1])
  }

  /** Canonical parts are left alone. */
  lemma {:induction false} CollapseCanonical(parts: seq<string>)
    requires Canonical(parts)
    ensures Collapse(parts) == parts
    decreases |parts|
  {
    if parts != [] {
      CollapseCanonical(parts[..|parts| - 1]);
      assert parts[..|parts| - 1] + [parts[|parts| - 1]] == parts;
    }
  }

  /** Resolution is idempotent. */
  lemma CollapseIdempotent(parts: seq<string>)
    requires forall i :: 0 <= i < |parts| ==> IsPart(parts[i])
    ensures Collapse(Collapse(parts)) == Collapse(parts)
  {
    CollapseCanonical(Collapse(parts));
  }

  /** Appending plain parts to a path appends them to its resolution. */
  lemma {:induction false} CollapseAppend(xs: seq<string>, ys: seq<string>)
    requires forall i :: 0 <= i < |xs| ==> IsPart(xs[i])
    requires Canonical(ys)
    ensures Collapse(xs + ys) == Collapse(xs) + ys
    decreases |ys|
  {
    if ys == [] {
      assert xs + ys == xs;
    } else {
      var init := ys[..|ys| - 1];
      assert (xs + ys)[..|xs + ys| - 1] == xs + init;
      CollapseAppend(xs, init);
      assert init + [ys[|ys| - 1]] == ys;
    }
  }

  /** `Path(s).resolve()` with the working directory `cwd` (itself canonical),
      when no symbolic link is involved. */
  function Resolve(s: string, cwd: seq<string>): (parts: seq<string>)
    requires Canonical(cwd)
    ensures Canonical(parts)
  {
    var p := ParsePath(s);
    if p.absolute then Collapse(p.parts) else Collapse(cwd + p.parts)
  }

  /** `root in stored.parents` for two resolved absolute paths: `root` is a
      proper ancestor of `stored`. */
  predicate StrictlyUnder(root: seq<string>, stored: seq<string>) {
    |root| < |stored| && stored[..|root|] == root
  }

  const InternalPrefix := "/apphub_internal/"
  const InvalidPath := HttpError(400, "Invalid file path")

  /** The containment check and redirect of `download_file` and `media_file`:
      accept a stored path only when the resolved storage root is a proper
      ancestor of it, and point the web server at the part below the root. */
  function InternalRedirect(storageRoot: string, stored: string, cwd: seq<string>): (r: Result<string>)
    requires Canonical(cwd)
    ensures r.Ok? <==> StrictlyUnder(Resolve(storageRoot, cwd), Resolve(stored, cwd))
    ensures r.Err? ==> r.error == InvalidPath
  {
    var root := Resolve(storageRoot, cwd);
    var path := Resolve(stored, cwd);
    if !StrictlyUnder(root, path) then Err(InvalidPath)
    else Ok(InternalPrefix + Join(path[|root|..], '/'))
  }

  /** What an accepted redirect names: the prefix followed by the parts of
      the stored path below the root, each a plain name (never "..", ".",
      empty, or holding "/"), so the redirect cannot leave the internal
      location, and root plus those parts is the stored file again. */
  lemma RedirectNamesStoredFile(storageRoot: string, stored: string, cwd: seq<string>)
    requires Canonical(cwd)
    requires InternalRedirect(storageRoot, stored, cwd).Ok?
    ensures var root := Resolve(storageRoot, cwd);
            var rel := Resolve(stored, cwd)[|root|..];
            var target := InternalRedirect(storageRoot, stored, cwd).value;
            rel != [] && Canonical(rel) &&
            StartsWith(target, InternalPrefix) &&
            target[|InternalPrefix|..] == Join(rel, '/') &&
            Split(target[|InternalPrefix|..], '/') == rel &&
            root + rel == Resolve(stored, cwd)
  {
    var root := Resolve(storageRoot, cwd);
    var path := Resolve(stored, cwd);
    var rel := path[|root|..];
    assert forall i :: 0 <= i < |rel| ==> rel[i] == path[|root| + i];
    SplitJoin(rel, '/');
    assert root + rel == path;
  }

  /** The storage root itself is never served. */
  lemma RootItselfRejected(storageRoot: string, cwd: seq<string>)
    requires Canonical(cwd)
    ensures InternalRedirect(storageRoot, storageRoot, cwd) == Err(InvalidPath)
  {
  }

  /** A path that climbs out of the root with ".." is rejected: the root
      followed by "..", then any plain parts that do not start with the
      root's last name, resolves outside the root. */
  lemma ClimbingOutRejected(rootParts: seq<string>, escape: seq<string>, cwd: seq<string>)
    requires Canonical(cwd) && Canonical(rootParts) && rootParts != []
    requires Canonical(escape)
    requires escape == [] || escape[0] != rootParts[|rootParts| - 1]
    ensures var storageRoot := PathText(Path(true, rootParts));
            InternalRedirect(storageRoot, PathText(Path(true, rootParts + [".."] + escape)), cwd) == Err(InvalidPath)
  {
    var storageRoot := PathText(Path(true, rootParts));
    var climbing := rootParts + [".."] + escape;
    assert WellFormed(Path(true, climbing)) by {
      assert forall i :: 0 <= i < |climbing| ==>
        climbing[i] == (if i < |rootParts| then rootParts[i] else if i == |rootParts| then ".." else escape[i - |rootParts| - 1]);
    }
    PathTextRoundTrip(Path(true, rootParts));
    PathTextRoundTrip(Path(true, climbing));
    CollapseCanonical(rootParts);
    var up := rootParts + [".."];
    assert up[..|up| - 1] == rootParts;
    CollapseAppend(up, escape);
    var parent := rootParts[..|rootParts| - 1];
    assert Collapse(up) == parent;
    var resolved := parent + escape;
    assert Resolve(storageRoot, cwd) == rootParts;
    assert Resolve(PathText(Path(true, climbing)), cwd) == resolved;
    assert !StrictlyUnder(rootParts, resolved) by {
      if |rootParts| < |resolved| {
        assert escape != [];
        assert resolved[|rootParts| - 1] == escape[0];
        assert resolved[..|rootParts|][|rootParts| - 1] != rootParts[|rootParts| - 1];
      }
    }
  }

  /** A file stored below the root under plain names is accepted, and the
      redirect is the prefix followed by those names. */
  lemma StoredUnderRootAccepted(rootParts: seq<string>, rel: seq<string>, cwd: seq<string>)
    requires Canonical(cwd) && Canonical(rootParts) && Canonical(rel) && rel != []
    ensures InternalRedirect(PathText(Path(true, rootParts)), PathText(Path(true, rootParts + rel)), cwd)
              == Ok(InternalPrefix + Join(rel, '/'))
  {
    assert Canonical(rootParts + rel) by {
      assert forall i :: 0 <= i < |rootParts + rel| ==>
        (rootParts + rel)[i] == (if i < |rootParts| then rootParts[i] else rel[i - |rootParts|]);
    }
    PathTextRoundTrip(Path(true, rootParts));
    PathTextRoundTrip(Path(true, rootParts + rel));
    CollapseCanonical(rootParts);
    CollapseCanonical(rootParts + rel);
    assert (rootParts + rel)[..|rootParts|] == rootParts;
    assert (rootParts + rel)[|rootParts|..] == rel;
  }
}
