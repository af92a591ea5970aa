/**
  Absolute paths and the containment of workspaces below their root. Paths follow the Unix reading: a separator
  is '/', a leading one is the root, and empty pieces and "." name nothing.
*/
module Paths {
  import opened Prelude
  import opened Names
  import Utf8

  datatype Component = RootDir | CurDir | ParentDir | Normal(part: string)

  /** A normalised absolute path: its parts below the root. */
  type Path = seq<string>

  predicate IsAbsolute(text: string) {
    text != "" && text[0] == '/'
  }

  /** Puts one character in front of a split text. */
  function Prepend(c: char, pieces: seq<string>): (r: seq<string>)
    requires pieces != []
    ensures r != []
  {
    if c == '/' then [""] + pieces else [[c] + pieces[0]] + pieces[1..]
  }

  /** The texts between separators. */
  function Pieces(text: string): (pieces: seq<string>)
    ensures pieces != []
  {
    if text == "" then [""] else Prepend(text[0], Pieces(text[1..]))
  }

  /** The component a piece names, if any. */
  function PieceComponent(piece: string): seq<Component> {
    if piece == "" || piece == "." then [] else if piece == ".." then [ParentDir] else [Normal(piece)]
  }

  function PieceComponents(pieces: seq<string>): seq<Component> {
    if pieces == [] then [] else PieceComponent(pieces[0]) + PieceComponents(pieces[1..])
  }

  function Components(text: string): seq<Component>
    requires IsAbsolute(text)
  {
    [RootDir] + PieceComponents(Pieces(text))
  }

  /** `Path::join`. */
  function Join(base: string, text: string): string {
    if IsAbsolute(text) || base == "" then text
    else if base[|base| - 1] == '/' then base + text
    else base + "/" + text
  }

  /** Where a walk over `components` ends when it starts in `base`; going up from the root stays there. */
  function Walk(base: Path, components: seq<Component>): Path
    decreases components
  {
    if components == [] then base
    else
      var next := match components[0]
        case RootDir => []
        case CurDir => base
        case ParentDir => if base == [] then [] else base[..|base| - 1]
        case Normal(part) => base + [part];
      Walk(next, components[1..])
  }

  /** Every part is an ordinary segment, so the path has only one spelling. */
  predicate Clean(path: Path) {
    forall i :: 0 <= i < |path| ==> IsSafeSegment(path[i])
  }

  /** Components that come from a text have ordinary names. */
  predicate SafeComponents(components: seq<Component>) {
    forall i :: 0 <= i < |components| && components[i].Normal? ==> IsSafeSegment(components[i].part)
  }

  lemma {:induction false} PiecesHaveNoSeparator(text: string)
    ensures forall i :: 0 <= i < |Pieces(text)| ==> '/' !in Pieces(text)[i]
  {
    if text != "" {
      PiecesHaveNoSeparator(text[1..]);
    }
  }

  lemma {:induction false} PieceComponentsSafe(pieces: seq<string>)
    requires forall i :: 0 <= i < |pieces| ==> '/' !in pieces[i]
    ensures SafeComponents(PieceComponents(pieces))
  {
    if pieces != [] {
      PieceComponentsSafe(pieces[1..]);
    }
  }

  function Normalized(text: string): Path
    requires IsAbsolute(text)
  {
    Walk([], Components(text))
  }

  lemma {:induction false} WalkConcat(base: Path, a: seq<Component>, b: seq<Component>)
    ensures Walk(base, a + b) == Walk(Walk(base, a), b)
    decreases a
  {
    if a == [] {
      assert a + b == b;
    } else {
      assert (a + b)[1..] == a[1..] + b;
      var next := match a[0]
        case RootDir => []
        case CurDir => base
        case ParentDir => if base == [] then [] else base[..|base| - 1]
        case Normal(part) => base + [part];
      WalkConcat(next, a[1..], b);
    }
  }

  /** The absolute text of a path: a relative one is taken from the current directory, if that is known. */
  function Absolute(text: string, currentDir: Result<string, string>): Result<string, string> {
    if IsAbsolute(text) then Ok(text)
    else if currentDir.Err? then currentDir
    else Ok(Join(currentDir.value, text))
  }

  lemma AbsoluteIsAbsolute(text: string, currentDir: Result<string, string>)
    requires currentDir.Ok? ==> IsAbsolute(currentDir.value)
    ensures Absolute(text, currentDir).Ok? ==> IsAbsolute(Absolute(text, currentDir).value)
  {
  }

  method NormalizeAbsolutePath(text: string, currentDir: Result<string, string>) returns (r: Result<Path, string>)
    requires currentDir.Ok? ==> IsAbsolute(currentDir.value)
    ensures var absolute := Absolute(text, currentDir);
            if absolute.Err? then r == Err(absolute.error)
            else IsAbsolute(absolute.value) && r == Ok(Normalized(absolute.value)) && Clean(r.value)
  {
    AbsoluteIsAbsolute(text, currentDir);
    var absolute := text;
    if !IsAbsolute(text) {
      match currentDir {
        case Err(error) => return Err(error);
        case Ok(directory) => absolute := Join(directory, text);
      }
    }
    var components := Components(absolute);
    PiecesHaveNoSeparator(absolute);
    PieceComponentsSafe(Pieces(absolute));
    assert SafeComponents(components);
    var normalized: Path := [];
    for i := 0 to |components|
      invariant normalized == Walk([], components[..i])
      invariant Clean(normalized)
    {
      WalkConcat([], components[..i], [components[i]]);
      assert components[..i] + [components[i]] == components[..i + 1];
      match components[i] {
        case CurDir =>
        case ParentDir =>
          if normalized != [] {
            normalized := normalized[..|normalized| - 1];
          }
        case Normal(part) => normalized := normalized + [part];
        case RootDir => normalized := [];
      }
    }
    assert components[..|components|] == components;
    return Ok(normalized);
  }

  // ---- Spelling a normalised path and reading it back

  function RenderParts(path: Path): string {
    if path == [] then "" else "/" + path[0] + RenderParts(path[1..])
  }

  function Render(path: Path): string {
    if path == [] then "/" else RenderParts(path)
  }

  lemma PiecesCons(c: char, text: string)
    ensures Pieces([c] + text) == Prepend(c, Pieces(text))
  {
    assert ([c] + text)[1..] == text;
  }

  lemma PrependConcat(c: char, a: seq<string>, b: seq<string>)
    requires a != []
    ensures Prepend(c, a + b) == Prepend(c, a) + b
  {
    assert (a + b)[1..] == a[1..] + b;
  }

  lemma {:induction false} PiecesOfJoined(a: string, b: string)
    ensures Pieces(a + ("/" + b)) == Pieces(a) + Pieces(b)
  {
    PiecesCons('/', b);
    if a == "" {
      assert a + ("/" + b) == "/" + b;
    } else {
      PiecesOfJoined(a[1..], b);
      assert a + ("/" + b) == [a[0]] + (a[1..] + ("/" + b));
      PiecesCons(a[0], a[1..] + ("/" + b));
      PrependConcat(a[0], Pieces(a[1..]), Pieces(b));
    }
  }

  lemma {:induction false} PiecesOfSegment(segment: string)
    requires '/' !in segment
    ensures Pieces(segment) == [segment]
  {
    if segment != "" {
      PiecesOfSegment(segment[1..]);
      assert segment == [segment[0]] + segment[1..];
    }
  }

  /** The text of a path followed by more text splits into the path's parts and the pieces of that text. */
  lemma {:induction false} PiecesOfRendered(path: Path, more: string)
    requires Clean(path)
    ensures Pieces(RenderParts(path) + ("/" + more)) == [""] + (path + Pieces(more))
  {
    hide Pieces;
    PiecesCons('/', more);
    if path == [] {
      assert RenderParts(path) + ("/" + more) == "/" + more;
      assert path + Pieces(more) == Pieces(more);
    } else {
      var rest := RenderParts(path[1..]) + ("/" + more);
      var pieces := path[1..] + Pieces(more);
      assert Pieces(rest) == [""] + pieces by { PiecesOfRendered(path[1..], more); }
      assert Pieces(['/'] + (path[0] + rest)) == [""] + ([path[0]] + pieces) by {
        PiecesAfterSegment(path[0], rest, pieces);
        PiecesCons('/', path[0] + rest);
      }
      assert RenderParts(path) + ("/" + more) == ['/'] + (path[0] + rest);
      assert [path[0]] + pieces == path + Pieces(more);
    }
  }

  /** A segment in front of text that starts with a separator becomes a piece of its own. */
  lemma {:induction false} PiecesAfterSegment(segment: string, rest: string, pieces: seq<string>)
    requires '/' !in segment
    requires Pieces(rest) == [""] + pieces
    ensures Pieces(segment + rest) == [segment] + pieces
  {
    if segment == "" {
      assert segment + rest == rest;
    } else {
      PiecesAfterSegment(segment[1..], rest, pieces);
      assert segment + rest == [segment[0]] + (segment[1..] + rest);
      PiecesCons(segment[0], segment[1..] + rest);
      assert ([segment[1..]] + pieces)[1..] == pieces;
      assert [segment[0]] + segment[1..] == segment;
    }
  }

  /** Walking down a clean path appends it. */
  lemma {:induction false} WalkClean(base: Path, path: Path)
    requires Clean(path)
    ensures Walk(base, PieceComponents(path)) == base + path
    decreases path
  {
    if path == [] {
      assert base + path == base;
    } else {
      WalkClean(base + [path[0]], path[1..]);
      assert PieceComponents(path) == [Normal(path[0])] + PieceComponents(path[1..]);
      assert base + [path[0]] + path[1..] == base + path;
    }
  }

  lemma NormalizedRenderedJoin(root: Path, more: string, parts: Path)
    requires Clean(root) && Clean(parts)
    requires Pieces(more) == parts
    ensures var text := RenderParts(root) + ("/" + more); IsAbsolute(text) && Normalized(text) == root + parts
  {
    var text := RenderParts(root) + ("/" + more);
    PiecesOfRendered(root, more);
    assert text[0] == '/' by { assert root != [] ==> RenderParts(root)[0] == '/'; }
    assert ([""] + (root + parts))[1..] == root + parts;
    assert PieceComponents(Pieces(text)) == PieceComponents(root + parts);
    WalkClean([], root + parts);
    assert [] + (root + parts) == root + parts;
    assert Components(text)[1..] == PieceComponents(root + parts);
  }

  /** Normalising the text of a normalised path changes nothing. */
  lemma NormalizedRender(path: Path)
    requires Clean(path)
    ensures IsAbsolute(Render(path)) && Normalized(Render(path)) == path
  {
    if path == [] {
      assert Pieces("/") == [""] + Pieces("") by { assert "/"[1..] == ""; }
      assert PieceComponents(["", ""]) == [] by { assert ["", ""][1..] == [""]; assert [""][1..] == []; }
      assert Components("/") == [RootDir];
    } else {
      var init, last := path[..|path| - 1], path[|path| - 1];
      RenderLast(init, last);
      assert init + [last] == path;
      PiecesOfSegment(last);
      NormalizedRenderedJoin(init, last, [last]);
    }
  }

  lemma {:induction false} RenderLast(init: Path, last: string)
    ensures RenderParts(init + [last]) == RenderParts(init) + ("/" + last)
  {
    if init != [] {
      RenderLast(init[1..], last);
      assert (init + [last])[1..] == init[1..] + [last];
    }
  }

  // ---- What normalising does to a text

  lemma {:induction false} PieceComponentsConcat(a: seq<string>, b: seq<string>)
    ensures PieceComponents(a + b) == PieceComponents(a) + PieceComponents(b)
  {
    if a == [] {
      assert a + b == b;
    } else {
      hide PieceComponent;
      PieceComponentsConcat(a[1..], b);
      assert (a + b)[1..] == a[1..] + b;
      Associative(PieceComponent(a[0]), PieceComponents(a[1..]), PieceComponents(b));
    }
  }

  function Parent(path: Path): Path {
    if path == [] then [] else path[..|path| - 1]
  }

  /**
    One more segment behind any absolute text: an empty one or "." changes nothing, ".." goes up to the parent, which
    is the root for the root, and any other segment goes down. Together with the text "/" for the root this tells
    what every absolute text normalises to.
  */
  lemma NormalizedSegment(text: string, segment: string)
    requires IsAbsolute(text) && '/' !in segment
    ensures IsAbsolute(text + ("/" + segment))
    ensures Normalized(text + ("/" + segment)) ==
            if segment == "" || segment == "." then Normalized(text)
            else if segment == ".." then Parent(Normalized(text))
            else Normalized(text) + [segment]
  {
    hide Pieces;
    PiecesOfJoined(text, segment);
    PiecesOfSegment(segment);
    PieceComponentsConcat(Pieces(text), [segment]);
    assert PieceComponents([segment]) == PieceComponent(segment) by { assert [segment][1..] == []; }
    assert Components(text + ("/" + segment)) == Components(text) + PieceComponent(segment);
    WalkConcat([], Components(text), PieceComponent(segment));
  }

  /** At the root there is nowhere to go up to. */
  lemma RootHasNoParent()
    ensures Normalized("/") == [] && Normalized("/..") == []
  {
    NormalizedRender([]);
    PiecesOfJoined("", "..");
    PiecesOfSegment("");
    PiecesOfSegment("..");
    assert "" + ("/" + "..") == "/..";
    assert Components("/..") == [RootDir, ParentDir] by {
      assert ["", ".."][1..] == [".."] && [".."][1..] == [];
    }
    assert [RootDir, ParentDir][1..] == [ParentDir] && [ParentDir][1..] == [];
  }

  /** Down into a directory and up again leads back. */
  lemma DownAndUp(path: Path, segment: string)
    requires Clean(path) && IsSafeSegment(segment)
    ensures var text := Render(path) + ("/" + segment) + ("/" + "..");
            IsAbsolute(text) && Normalized(text) == path
  {
    hide Normalized;
    NormalizedRender(path);
    NormalizedSegment(Render(path), segment);
    NormalizedSegment(Render(path) + ("/" + segment), "..");
  }

  /** The text "/.." so many times. */
  function Ups(k: nat): string {
    if k == 0 then "" else Ups(k - 1) + ("/" + "..")
  }

  /** Going up k times takes away the last k parts, or all of them. */
  lemma {:induction false} ClimbsUp(path: Path, k: nat)
    requires Clean(path)
    ensures IsAbsolute(Render(path) + Ups(k))
    ensures Normalized(Render(path) + Ups(k)) == path[..|path| - Min(k, |path|)]
  {
    hide Normalized;
    NormalizedRender(path);
    if k == 0 {
      assert Render(path) + Ups(k) == Render(path);
    } else {
      ClimbsUp(path, k - 1);
      NormalizedSegment(Render(path) + Ups(k - 1), "..");
      Associative(Render(path), Ups(k - 1), "/" + "..");
    }
  }

  /** Going down appends. */
  lemma {:induction false} GoesDown(text: string, parts: Path)
    requires IsAbsolute(text) && Clean(parts)
    ensures IsAbsolute(text + RenderParts(parts)) && Normalized(text + RenderParts(parts)) == Normalized(text) + parts
  {
    hide Normalized;
    if parts == [] {
      assert text + RenderParts(parts) == text;
    } else {
      var init, last := parts[..|parts| - 1], parts[|parts| - 1];
      assert init + [last] == parts;
      GoesDown(text, init);
      RenderLast(init, last);
      NormalizedSegment(text + RenderParts(init), last);
      Associative(text, RenderParts(init), "/" + last);
      Associative(Normalized(text), init, [last]);
    }
  }

  /** A relative text is taken from the current directory. */
  lemma RelativeFromCurrent(directory: Path, parts: Path)
    requires Clean(directory) && Clean(parts) && parts != []
    ensures var text := RenderParts(parts)[1..];
            && !IsAbsolute(text)
            && Absolute(text, Ok(Render(directory))) == Ok(Join(Render(directory), text))
            && IsAbsolute(Join(Render(directory), text))
              && Normalized(Join(Render(directory), text)) == directory + parts
  {
    hide Normalized;
    var text := RenderParts(parts)[1..];
    assert RenderParts(parts) == "/" + text && text[0] == parts[0][0];
    NormalizedRender(directory);
    if directory == [] {
      NormalizedRender(parts);
      assert Join("/", text) == Render(parts) && directory + parts == parts;
    } else {
      RenderedRootEnd(directory);
      Associative(Render(directory), "/", text);
      GoesDown(Render(directory), parts);
    }
  }

  // ---- Workspaces below their root

  /** The parts a workspace key adds to the root. */
  function KeyParts(sourceId: string, identifier: string): (parts: Path)
    ensures Clean(parts) && parts != []
  {
    var issueKey := SanitizeWorkspaceKey(identifier);
    if sourceId == DEFAULT_SOURCE_ID then [issueKey] else [Namespace(sourceId), issueKey]
  }

  lemma PiecesOfKey(sourceId: string, identifier: string)
    ensures Pieces(SourceWorkspaceKey(sourceId, identifier)) == KeyParts(sourceId, identifier)
    ensures !IsAbsolute(SourceWorkspaceKey(sourceId, identifier))
  {
    hide Namespace, SanitizeWorkspaceKey, Pieces;
    var key := SanitizeWorkspaceKey(identifier);
    PiecesOfSegment(key);
    if sourceId != DEFAULT_SOURCE_ID {
      PiecesOfTwo(Namespace(sourceId), key);
    }
  }

  lemma PiecesOfTwo(a: string, b: string)
    requires a != "" && '/' !in a && '/' !in b
    ensures Pieces(a + "/" + b) == [a, b] && !IsAbsolute(a + "/" + b)
  {
    hide Pieces;
    PiecesOfSegment(a);
    PiecesOfSegment(b);
    PiecesOfJoined(a, b);
    assert a + "/" + b == a + ("/" + b);
    assert (a + "/" + b)[0] == a[0];
  }

  const ESCAPES_ROOT := "workspace path escapes root"

  predicate StrictlyInside(root: Path, path: Path) {
    root < path
  }

  /** The texts are those of a root and of a path that climbs `k` times from it and then goes down along `parts`. */
  predicate Detour(rootText: string, pathText: string, root: Path, k: nat, parts: Path) {
    Clean(root) && Clean(parts) && rootText == Render(root) && pathText == Render(root) + Ups(k) + RenderParts(parts)
  }

  /**
    A path that climbs out of the root and down again lies in the root exactly when it comes back through the very
    directories it left and goes on. So it is refused as soon as it enters another one.
  */
  lemma ClimbingOut(root: Path, k: nat, parts: Path)
    requires Clean(root) && Clean(parts)
    ensures var text := Render(root) + Ups(k) + RenderParts(parts);
            && IsAbsolute(Render(root)) && IsAbsolute(text)
            && (StrictlyInside(Normalized(Render(root)), Normalized(text)) <==>
                root[|root| - Min(k, |root|)..] < parts)
    ensures root != [] && k > 0 && parts != [] && parts[0] != root[|root| - Min(k, |root|)] ==>
              !StrictlyInside(Normalized(Render(root)), Normalized(Render(root) + Ups(k) + RenderParts(parts)))
  {
    hide Normalized, Ups, Render, RenderParts;
    NormalizedRender(root);
    ClimbsUp(root, k);
    GoesDown(Render(root) + Ups(k), parts);
    var m := |root| - Min(k, |root|);
    assert root == root[..m] + root[m..];
    if root[m..] < parts {
      assert root == (root[..m] + parts)[..|root|];
    }
    if root < root[..m] + parts {
      assert root[m..] == (root[..m] + parts)[m..|root|] == parts[..|root| - m];
    }
  }

  /** Passes exactly when both paths can be made absolute and one is strictly below the other. */
  method EnsureContained(root: string, workspacePath: string, currentDir: Result<string, string>)
    returns (r: Result<(), string>)
    requires currentDir.Ok? ==> IsAbsolute(currentDir.value)
    ensures Absolute(root, currentDir).Err? || Absolute(workspacePath, currentDir).Err? ==> r == Err(currentDir.error)
    ensures Absolute(root, currentDir).Ok? && Absolute(workspacePath, currentDir).Ok? ==>
              var a, b := Absolute(root, currentDir).value, Absolute(workspacePath, currentDir).value;
              && IsAbsolute(a) && IsAbsolute(b)
              && r == if StrictlyInside(Normalized(a), Normalized(b)) then Ok(()) else Err(ESCAPES_ROOT)
    ensures forall p, k: nat, parts :: Detour(root, workspacePath, p, k, parts) ==>
              r == if p[|p| - Min(k, |p|)..] < parts then Ok(()) else Err(ESCAPES_ROOT)
  {
    forall p, k: nat, parts | Detour(root, workspacePath, p, k, parts)
      ensures IsAbsolute(root) && IsAbsolute(workspacePath)
      ensures StrictlyInside(Normalized(root), Normalized(workspacePath)) <==> p[|p| - Min(k, |p|)..] < parts
    {
      ClimbingOut(p, k, parts);
    }
    hide Normalized, Detour;
    var normalizedRoot := NormalizeAbsolutePath(root, currentDir);
    if normalizedRoot.Err? {
      return Err(normalizedRoot.error);
    }
    var normalizedPath := NormalizeAbsolutePath(workspacePath, currentDir);
    if normalizedPath.Err? {
      return Err(normalizedPath.error);
    }
    if normalizedRoot.value <= normalizedPath.value && normalizedPath.value != normalizedRoot.value {
      return Ok(());
    }
    return Err(ESCAPES_ROOT);
  }

  /**
    A workspace's directory. `root` is what the manager holds: an absolute path already normalised. The
    containment check can never fail, whatever the issue is called.
  */
  method WorkspacePathForSourceIdentifier(
      root: Path, sourceId: string, identifier: string, currentDir: Result<string, string>)
    returns (r: Result<(string, Path), string>)
    requires Clean(root)
    requires currentDir.Ok? ==> IsAbsolute(currentDir.value)
    ensures r == Ok((SourceWorkspaceKey(sourceId, identifier), root + KeyParts(sourceId, identifier)))
    ensures StrictlyInside(root, root + KeyParts(sourceId, identifier))
  {
    var key := SourceWorkspaceKey(sourceId, identifier);
    var text := Join(Render(root), key);
    PiecesOfKey(sourceId, identifier);
    assert text == RenderParts(root) + ("/" + key) by { RenderedRootEnd(root); }
    NormalizedRenderedJoin(root, key, KeyParts(sourceId, identifier));
    var path := NormalizeAbsolutePath(text, currentDir);
    NormalizedRender(root);
    NormalizedRender(path.value);
    var contained := EnsureContained(Render(root), Render(path.value), currentDir);
    r := if contained.Ok? then Ok((key, path.value)) else Err(ESCAPES_ROOT);
  }

  lemma {:induction false} RenderedRootEnd(root: Path)
    requires Clean(root)
    ensures root != [] ==> Render(root) != "" && Render(root)[|Render(root)| - 1] != '/'
  {
    if root != [] {
      var init, last := root[..|root| - 1], root[|root| - 1];
      RenderLast(init, last);
      assert init + [last] == root;
    }
  }

  predicate IsAncestor(a: Path, b: Path) {
    a < b
  }

  /**
    One workspace is an ancestor of another exactly when it is a default-source workspace named like the other
    source's namespace directory.
  */
  lemma AncestorExactly(root: Path, s1: string, i1: string, s2: string, i2: string)
    ensures IsAncestor(root + KeyParts(s1, i1), root + KeyParts(s2, i2)) <==>
            s1 == DEFAULT_SOURCE_ID != s2 && SanitizeWorkspaceKey(i1) == Namespace(s2)
  {
    var w1, w2 := root + KeyParts(s1, i1), root + KeyParts(s2, i2);
    assert w1[|root|] == KeyParts(s1, i1)[0] && w2[|root|] == KeyParts(s2, i2)[0];
    if s1 == DEFAULT_SOURCE_ID != s2 && SanitizeWorkspaceKey(i1) == Namespace(s2) {
      assert w1 == w2[..|w1|];
    }
  }

  /** Some character of the identifier may not stand in a workspace key. */
  predicate NeedsSanitizing(identifier: string) {
    exists k :: 0 <= k < |identifier| && !IsWorkspaceChar(identifier[k])
  }

  /** An identifier with a character to sanitise, such as "owner/repo#7", never contains another workspace. */
  lemma SanitizedNamesAreNotAncestors(root: Path, s1: string, i1: string, s2: string, i2: string)
    requires NeedsSanitizing(i1)
    ensures !IsAncestor(root + KeyParts(s1, i1), root + KeyParts(s2, i2))
  {
    var k :| 0 <= k < |i1| && !IsWorkspaceChar(i1[k]);
    AncestorExactly(root, s1, i1, s2, i2);
    var key := SanitizeWorkspaceKey(i1);
    assert '_' in key by {
      var mapped := seq(|i1|, i requires 0 <= i < |i1| => SanitizeChar(i1[i]));
      assert mapped[k] == '_';
    }
  }

  /** The name GitHub issues get has such a character. */
  lemma GitHubIdentifierIsSanitized(nameWithOwner: string, number: nat)
    ensures NeedsSanitizing(nameWithOwner + "#" + Decimal(number))
  {
    assert (nameWithOwner + "#" + Decimal(number))[|nameWithOwner|] == '#';
  }

  /** Without one it can happen: source "a" keeps its workspaces inside the workspace of issue "source-61". */
  lemma AncestorExample(root: Path, identifier: string)
    ensures IsAncestor(root + KeyParts(DEFAULT_SOURCE_ID, "source-61"), root + KeyParts("a", identifier))
  {
    assert Utf8.Encode("a") == [0x61] by { assert "a"[1..] == []; }
    assert Hex([0x61]) == [HexDigit(6), HexDigit(1)] + Hex([]);
    assert Namespace("a") == "source-61";
    var mapped := seq(9, i requires 0 <= i < 9 => SanitizeChar("source-61"[i]));
    assert mapped == "source-61";
    AncestorExactly(root, DEFAULT_SOURCE_ID, "source-61", "a", identifier);
  }
}
