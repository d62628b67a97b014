/**
 * Unix paths as `std::path` sees them: whether the path has a root, and its
 * normal components in order. Repeated separators and `.` components are not
 * components, so they are not kept.
 */
module Paths {

  datatype Path = Path(rooted: bool, parts: seq<string>)

  /** `Path::new("")`. */
  const Empty := Path(false, [])

  /** A component as `Path::components` yields it: non-empty, not `.`, no separator. */
  predicate IsComponent(c: string) {
    c != [] && c != "." && '/' !in c
  }

  predicate WellFormed(p: Path) {
    forall k {:trigger p.parts[k]} :: 0 <= k < |p.parts| ==> IsComponent(p.parts[k])
  }

  /** The pieces of `s` between separators, empty pieces included. */
  function Split(s: string): (r: seq<string>)
    ensures |r| >= 1
    ensures forall k :: 0 <= k < |r| ==> '/' !in r[k]
  {
    if s == [] then [""]
    else if s[0] == '/' then [""] + Split(s[1..])
    else
      var rest := Split(s[1..]);
      [[s[0]] + rest[0]] + rest[1..]
  }

  /** The pieces of `s`, joined by single separators, give `s` back. */
  lemma {:induction false} SplitRejoin(s: string)
    ensures JoinParts(Split(s)) == s
  {
    if s != [] {
      var x := s[1..];
      var rest := Split(x);
      SplitRejoin(x);
      assert s == [s[0]] + x;
      SplitCons(s[0], x);
      if s[0] == '/' {
        assert ([""] + rest)[1..] == rest;
        assert JoinParts([""] + rest) == "" + "/" + JoinParts(rest);
      } else {
        var r := [[s[0]] + rest[0]] + rest[1..];
        assert r[0] == [s[0]] + rest[0];
        assert r[1..] == rest[1..];
        if |rest| > 1 {
          assert JoinParts(rest) == rest[0] + "/" + JoinParts(rest[1..]);
          assert JoinParts(r) == ([s[0]] + rest[0]) + "/" + JoinParts(rest[1..]);
        }
      }
    }
  }

  /**
   * The pieces that are components: empty pieces (from repeated or trailing
   * separators) and `.` pieces are dropped. Pieces of `Split` hold no separator.
   */
  function Components(pieces: seq<string>): (r: seq<string>)
    ensures forall k :: 0 <= k < |r| ==> IsComponent(r[k])
  {
    if pieces == [] then []
    else if IsComponent(pieces[0]) then [pieces[0]] + Components(pieces[1..])
    else Components(pieces[1..])
  }

  /** `Components` keeps the component pieces in order: it distributes over concatenation. */
  lemma {:induction false} ComponentsConcat(a: seq<string>, b: seq<string>)
    ensures Components(a + b) == Components(a) + Components(b)
  {
    if a == [] {
      assert a + b == b;
    } else {
      ComponentsConcat(a[1..], b);
      assert (a + b)[0] == a[0];
      assert (a + b)[1..] == a[1..] + b;
    }
  }

  /** A single piece is kept exactly when it is a component. */
  lemma ComponentsSingle(piece: string)
    ensures Components([piece]) == if IsComponent(piece) then [piece] else []
  {
    assert [piece][1..] == [];
  }

  /** `PathBuf::from(s)`, viewed through its components. */
  function ParsePath(s: string): (p: Path)
    ensures WellFormed(p)
    ensures p.rooted <==> |s| > 0 && s[0] == '/'
  {
    Path(|s| > 0 && s[0] == '/', Components(Split(s)))
  }

  /** The components joined by single separators. */
  function JoinParts(parts: seq<string>): string {
    if parts == [] then ""
    else if |parts| == 1 then parts[0]
    else parts[0] + "/" + JoinParts(parts[1..])
  }

  /** The canonical text of a path. */
  function Render(p: Path): string {
    (if p.rooted then "/" else "") + JoinParts(p.parts)
  }

  /** `strip_prefix("/")` followed by `unwrap_or(Path::new(""))`. */
  function StripRoot(p: Path): (r: Path)
    ensures !r.rooted
    ensures p.rooted ==> r.parts == p.parts
    ensures !p.rooted ==> r == Empty
  {
    if p.rooted then Path(false, p.parts) else Empty
  }

  /** `Path::join` on Unix: an absolute argument replaces the base, a relative one is appended. */
  function Join(base: Path, name: string): (r: Path)
    ensures ParsePath(name).rooted ==> r == ParsePath(name)
    ensures !ParsePath(name).rooted ==> r.rooted == base.rooted && r.parts == base.parts + ParsePath(name).parts
  {
    var n := ParsePath(name);
    if n.rooted then n else Path(base.rooted, base.parts + n.parts)
  }

  /** How `Split` treats a first character. */
  lemma SplitCons(c: char, x: string)
    ensures Split([c] + x) == if c == '/' then [""] + Split(x) else [[c] + Split(x)[0]] + Split(x)[1..]
  {
    assert ([c] + x)[0] == c;
    assert ([c] + x)[1..] == x;
  }

  /** Text joined at a separator splits into the pieces of either side. */
  lemma {:induction false} SplitSeparated(s: string, t: string)
    ensures Split(s + "/" + t) == Split(s) + Split(t)
  {
    if s == [] {
      assert s + "/" + t == "/" + t;
      SplitCons('/', t);
    } else {
      var x := s[1..];
      SplitSeparated(x, t);
      assert s == [s[0]] + x;
      assert s + "/" + t == [s[0]] + (x + "/" + t);
      SplitConsSeparated(s[0], x, t);
    }
  }

  /** The step of `SplitSeparated`: one more first character. */
  lemma SplitConsSeparated(c: char, x: string, t: string)
    requires Split(x + "/" + t) == Split(x) + Split(t)
    ensures Split([c] + (x + "/" + t)) == Split([c] + x) + Split(t)
  {
    SplitCons(c, x);
    SplitCons(c, x + "/" + t);
    PrependPieces(c, Split(x), Split(t));
  }

  /** Prepending a character to the pieces, as `Split` does, commutes with appending further pieces. */
  lemma PrependPieces(c: char, head: seq<string>, tail: seq<string>)
    requires |head| >= 1
    ensures (if c == '/' then [""] + (head + tail) else [[c] + (head + tail)[0]] + (head + tail)[1..])
         == (if c == '/' then [""] + head else [[c] + head[0]] + head[1..]) + tail
  {
    if c != '/' {
      assert (head + tail)[1..] == head[1..] + tail;
    }
  }

  /**
   * The components of text without a separator: itself, unless it is empty
   * or `.`.
   */
  lemma ParsePathPiece(s: string)
    requires '/' !in s
    ensures ParsePath(s).parts == if IsComponent(s) then [s] else []
  {
    SplitPiece(s);
    ComponentsSingle(s);
  }

  /**
   * The components of text joined at a separator are those of either side,
   * in order. With `ParsePathPiece` this fixes the components of every text.
   */
  lemma ParsePathSeparated(s: string, t: string)
    ensures ParsePath(s + "/" + t).parts == ParsePath(s).parts + ParsePath(t).parts
  {
    SplitSeparated(s, t);
    ComponentsConcat(Split(s), Split(t));
  }

  lemma {:induction false} SplitPiece(a: string)
    requires '/' !in a
    ensures Split(a) == [a]
  {
    if a != [] {
      SplitPiece(a[1..]);
      assert [a[0]] + a[1..] == a;
    }
  }

  lemma SplitAfterPiece(a: string, rest: string)
    requires '/' !in a
    ensures Split(a + "/" + rest) == [a] + Split(rest)
  {
    SplitSeparated(a, rest);
    SplitPiece(a);
  }

  lemma {:induction false} SplitJoin(parts: seq<string>)
    requires |parts| > 0
    requires forall k :: 0 <= k < |parts| ==> '/' !in parts[k]
    ensures Split(JoinParts(parts)) == parts
  {
    if |parts| == 1 {
      SplitPiece(parts[0]);
    } else {
      SplitJoin(parts[1..]);
      SplitAfterPiece(parts[0], JoinParts(parts[1..]));
      assert [parts[0]] + parts[1..] == parts;
    }
  }

  lemma {:induction false} ComponentsKeep(parts: seq<string>)
    requires forall k {:trigger parts[k]} :: 0 <= k < |parts| ==> IsComponent(parts[k])
    ensures Components(parts) == parts
  {
    if parts != [] {
      ComponentsKeep(parts[1..]);
      assert [parts[0]] + parts[1..] == parts;
    }
  }

  /** The text of non-empty components starts with the first one's first character. */
  lemma JoinPartsStart(parts: seq<string>)
    requires |parts| > 0 && parts[0] != []
    ensures JoinParts(parts) != [] && JoinParts(parts)[0] == parts[0][0]
  {
  }

  lemma ParseRenderRelative(parts: seq<string>)
    requires WellFormed(Path(false, parts))
    ensures ParsePath(JoinParts(parts)) == Path(false, parts)
  {
    ComponentsKeep(parts);
    if parts == [] {
      assert JoinParts(parts) == "";
    } else {
      assert IsComponent(parts[0]);
      JoinPartsStart(parts);
      SplitJoin(parts);
    }
  }

  /** Reading back the text of a well-formed path gives the same path. */
  lemma ParseRender(p: Path)
    requires WellFormed(p)
    ensures ParsePath(Render(p)) == p
  {
    var text := JoinParts(p.parts);
    ParseRenderRelative(p.parts);
    if p.rooted {
      assert Render(p) == "/" + text;
      assert ("/" + text)[1..] == text;
      assert Split(Render(p)) == [""] + Split(text);
      assert Components([""] + Split(text)) == Components(Split(text));
    } else {
      assert Render(p) == text;
    }
  }

  /** The text of a well-formed path starts with a separator exactly when it is rooted. */
  lemma RenderLeadingSeparator(p: Path)
    requires WellFormed(p)
    ensures |Render(p)| > 0 && Render(p)[0] == '/' <==> p.rooted
  {
  }
}
