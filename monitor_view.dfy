/**
 * The custom pixel highlight of the monitor view (MonitorView.kt): the
 * text typed into the highlight field is split into pixel names, each
 * completed to a full "SC..." name and looked up, and the highlighted
 * list is replaced only when every name is known.
 */
module MonitorView {
  import opened Wrappers
  import opened Text
  import opened Pixels
  import opened Events

  /** The alert title shown when the highlight text cannot be resolved. */
  const WRONG_SYNTAX := "Wrong syntax for pixel names"

  /** `findPixelByName`'s name completion: "SC" is prepended unless already there. */
  function FullName(name: string): (r: string)
    ensures StartsWith(r, "SC")
    ensures r == name <==> StartsWith(name, "SC")
    ensures r != name ==> r == "SC" + name
  {
    if StartsWith(name, "SC") then name else "SC" + name
  }

  /** Completing a name twice is completing it once. */
  lemma FullNameIdempotent(name: string)
    ensures FullName(FullName(name)) == FullName(name)
  {
  }

  /** Two names that already carry the prefix are completed apart exactly when they differ. */
  lemma FullNameInjective(a: string, b: string)
    requires StartsWith(a, "SC") == StartsWith(b, "SC")
    ensures FullName(a) == FullName(b) <==> a == b
  {
    if !StartsWith(a, "SC") && FullName(a) == FullName(b) {
      assert a == FullName(a)[2..] && b == FullName(b)[2..];
    }
  }

  /**
   * The trimmed text with its surrounding brackets removed: a text starting
   * with "[" loses its first and last character. A lone "[" makes
   * `substring(1, 0)` throw, which is None here.
   */
  function Unbracket(t: string): (r: Option<string>)
    ensures r.None? <==> t == "["
    ensures r.Some? && StartsWith(t, "[") ==> t == "[" + r.value + [t[|t| - 1]]
    ensures r.Some? && !StartsWith(t, "[") ==> r.value == t
  {
    if StartsWith(t, "[") then
      if |t| >= 2 then Some(t[1..|t| - 1]) else None
    else Some(t)
  }

  /** The names in a highlight text: unbracketed, split on ',' and each piece trimmed. */
  function Pieces(text: string): (r: Option<seq<string>>)
    ensures r.None? <==> Trim(text) == "["
    ensures r.Some? ==> |r.value| == |Split(Unbracket(Trim(text)).value, ',')|
    ensures r.Some? ==> forall i :: 0 <= i < |r.value| ==> r.value[i] == Trim(Split(Unbracket(Trim(text)).value, ',')[i])
  {
    match Unbracket(Trim(text))
    case None => None
    case Some(inner) => Some(TrimmedParts(inner))
  }

  /** The pieces of `inner` between commas, each trimmed. */
  function TrimmedParts(inner: string): seq<string>
  {
    var parts := Split(inner, ',');
    seq(|parts|, i requires 0 <= i < |parts| => Trim(parts[i]))
  }

  /**
   * The pixels the names stand for, in order, or None as soon as one
   * completed name is not a known pixel (`pixels[fullName]!!` throws).
   */
  function LookupAll(pixels: map<string, Pixel>, names: seq<string>): (r: Option<seq<Pixel>>)
    ensures r.Some? <==> forall i :: 0 <= i < |names| ==> FullName(names[i]) in pixels
    ensures r.Some? ==> |r.value| == |names|
    ensures r.Some? ==> forall i :: 0 <= i < |names| ==> r.value[i] == pixels[FullName(names[i])]
  {
    if names == [] then Some([])
    else if FullName(names[0]) !in pixels then None
    else
      match LookupAll(pixels, names[1..])
      case None => None
      case Some(rest) => Some([pixels[FullName(names[0])]] + rest)
  }

  /** The pixels a non-empty highlight text asks for, or None when it must raise the alert. */
  function Resolve(pixels: map<string, Pixel>, text: string): Option<seq<Pixel>>
  {
    match Pieces(text)
    case None => None
    case Some(names) => LookupAll(pixels, names)
  }

  /** Whitespace around a tight string is all `trim` removes. */
  lemma TrimTight(y: string)
    requires Tight(y)
    ensures Trim(y) == y
  {
    TrimPadded("", y);
    assert "" + y == y;
  }

  lemma SortKeepsTight(a: seq<string>)
    requires forall n :: n in a ==> Tight(n) && ',' !in n
    ensures forall n :: n in Sort(a) ==> Tight(n) && ',' !in n
  {
    forall n | n in Sort(a) ensures Tight(n) && ',' !in n {
      assert n in multiset(Sort(a));
    }
  }

  /** The identity string is already trimmed, and its brackets come off. */
  lemma UnbracketIdentity(names: seq<string>)
    ensures Unbracket(Trim(IdentityOf(names))) == Some(Join(Sort(names), ", "))
  {
    var inner := Join(Sort(names), ", ");
    var id := IdentityOf(names);
    assert id == "[" + inner + "]";
    assert Tight(id);
    TrimTight(id);
    assert StartsWith(id, "[");
    assert id[1..|id| - 1] == inner;
  }

  /** Splitting joined tight, comma-free names on ',' and trimming the pieces gives the names back. */
  lemma TrimmedPieces(ys: seq<string>)
    requires |ys| >= 1
    requires forall n :: n in ys ==> Tight(n) && ',' !in n
    ensures |Split(Join(ys, ", "), ',')| == |ys|
    ensures forall i :: 0 <= i < |ys| ==> Trim(Split(Join(ys, ", "), ',')[i]) == ys[i]
  {
    assert [','] + " " == ", ";
    assert forall y :: y in ys ==> ',' !in y;
    SplitJoin("", ys, ',', " ");
    assert "" + Join(ys, ", ") == Join(ys, ", ");
    var parts := Split(Join(ys, ", "), ',');
    forall i | 0 <= i < |ys| ensures Trim(parts[i]) == ys[i] {
      assert ys[i] in ys;
      if i == 0 {
        assert parts[0] == "" + ys[0];
        TrimPadded("", ys[0]);
      } else {
        assert parts[i] == " " + ys[i];
        TrimPadded(" ", ys[i]);
      }
    }
  }

  /** A text whose unbracketed core is tight, comma-free names joined by ", " yields those names. */
  lemma PiecesOfJoined(text: string, ys: seq<string>)
    requires |ys| >= 1
    requires forall n :: n in ys ==> Tight(n) && ',' !in n
    requires Unbracket(Trim(text)) == Some(Join(ys, ", "))
    ensures Pieces(text) == Some(ys)
  {
    assert TrimmedParts(Join(ys, ", ")) == ys by {
      TrimmedPieces(ys);
    }
  }

  /**
   * Round trip: pasting an event's identity string into the highlight
   * field gives back exactly its hit names, sorted, when no name has a
   * comma or outer whitespace.
   */
  lemma PiecesOfIdentity(names: seq<string>)
    requires |names| >= 1
    requires forall n :: n in names ==> Tight(n) && ',' !in n
    ensures Pieces(IdentityOf(names)) == Some(Sort(names))
  {
    UnbracketIdentity(names);
    SortKeepsTight(names);
    PiecesOfJoined(IdentityOf(names), Sort(names));
  }

  /** An event with no hits has identity "[]", which asks for the single empty name. */
  lemma PiecesOfEmptyIdentity()
    ensures Pieces(IdentityOf([])) == Some([""])
  {
    assert IdentityOf([]) == "[]";
    assert Tight("[]");
    TrimTight("[]");
    assert Unbracket("[]") == Some("");
    assert Split("", ',') == [""];
    assert Trim("") == "";
    var r := Pieces(IdentityOf([])).value;
    assert |r| == 1 && r[0] == "";
    assert r == [""];
  }

  /** The highlight field: the pixel map it resolves names in and the highlighted list. */
  class Highlighter {
    const pixels: map<string, Pixel>
    var highlighted: seq<Pixel>

    constructor(pixels: map<string, Pixel>)
      ensures this.pixels == pixels && highlighted == []
    {
      this.pixels := pixels;
      highlighted := [];
    }

    /**
     * The Enter key: empty text clears the list; otherwise the list becomes
     * the resolved pixels, or stays as it was while the alert is raised.
     */
    method OnEnter(text: string) returns (alert: Option<string>)
      modifies this
      ensures text == [] ==> highlighted == [] && alert.None?
      ensures text != [] && Resolve(pixels, text).Some? ==> highlighted == Resolve(pixels, text).value && alert.None?
      ensures text != [] && Resolve(pixels, text).None? ==> highlighted == old(highlighted) && alert == Some(WRONG_SYNTAX)
    {
      if text == [] {
        highlighted := [];
        return None;
      }
      var found := Resolve(pixels, text);
      if found.None? {
        return Some(WRONG_SYNTAX);
      }
      highlighted := found.value;
      return None;
    }
  }

  /**
   * Highlighting an event's identity selects exactly its hit pixels in
   * name order, when every hit is a pixel of the map under its own name.
   */
  lemma HighlightIdentity(pixels: map<string, Pixel>, names: seq<string>)
    requires |names| >= 1
    requires forall n :: n in names ==> Tight(n) && ',' !in n && StartsWith(n, "SC") && n in pixels
    ensures Resolve(pixels, IdentityOf(names)).Some?
    ensures |Resolve(pixels, IdentityOf(names)).value| == |names|
    ensures forall i :: 0 <= i < |names| ==> Sort(names)[i] in pixels && Resolve(pixels, IdentityOf(names)).value[i] == pixels[Sort(names)[i]]
  {
    PiecesOfIdentity(names);
    var ys := Sort(names);
    forall i | 0 <= i < |ys| ensures FullName(ys[i]) == ys[i] && ys[i] in pixels {
      assert ys[i] in multiset(names);
    }
  }
}
