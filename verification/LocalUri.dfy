// The virtual-URL checks of tools/webview2_shared/Wv2LocalUri.h against the path normalisation of RFC 3986:
// percent-decoding of dots (section 2.1) and remove_dot_segments (section 5.2.4).
module LocalUri {
  import opened Wrappers
  import opened Text

  // ---- RFC 3986 ---------------------------------------------------------------------------------------

  predicate DotTriplet(s: string) {
    |s| >= 3 && s[0] == '%' && s[1] == '2' && LowerChar(s[2]) == 'e'
  }

  // Every %2e or %2E read as a dot.
  function DecodeDots(s: string): string {
    if s == "" then "" else if DotTriplet(s) then "." + DecodeDots(s[3..]) else [s[0]] + DecodeDots(s[1..])
  }

  // Up to the next slash.
  function Segment(s: string): (r: string)
    ensures r <= s && '/' !in r && (r == s || (|r| < |s| && s[|r|] == '/'))
  {
    if s == "" || s[0] == '/' then "" else [s[0]] + Segment(s[1..])
  }

  predicate IsDot(segment: string) {
    segment == "." || segment == ".."
  }

  // Some segment of the path is "." or "..".
  predicate HasDotSegment(s: string)
    decreases |s|
  {
    var first := Segment(s);
    IsDot(first) || (|first| < |s| && HasDotSegment(s[|first| + 1..]))
  }

  // The output buffer without its last segment and the slash before it.
  function DropLast(out: string): (r: string)
    ensures |r| <= |out|
    decreases |out|
  {
    if out == "" then "" else if out[|out| - 1] == '/' then out[..|out| - 1] else DropLast(out[..|out| - 1])
  }

  // The loop of section 5.2.4, steps 2A to 2E.
  function RemoveDots(input: string, out: string): string
    decreases |input|
  {
    if input == "" then out
    else if "../" <= input then RemoveDots(input[3..], out)
    else if "./" <= input then RemoveDots(input[2..], out)
    else if "/./" <= input then RemoveDots(input[2..], out)
    else if input == "/." then RemoveDots("/", out)
    else if "/../" <= input then RemoveDots(input[3..], DropLast(out))
    else if input == "/.." then RemoveDots("/", DropLast(out))
    else if IsDot(input) then RemoveDots("", out)
    else
      var n := if input[0] == '/' then 1 + |Segment(input[1..])| else |Segment(input)|;
      RemoveDots(input[n..], out + input[..n])
  }

  function Normalised(path: string): string {
    RemoveDots(DecodeDots(path), "")
  }

  // ---- a path is its own normal form exactly when it has no dot segment --------------------------------

  lemma {:induction false} SegmentOf(a: string, b: string)
    requires '/' !in a && (b == "" || b[0] == '/')
    ensures Segment(a + b) == a
  {
    if a == "" {
      assert a + b == b;
    } else {
      assert a[0] in a && forall c | c in a[1..] :: c in a;
      SegmentOf(a[1..], b);
      assert (a + b)[0] == a[0] && (a + b)[1..] == a[1..] + b;
      assert a == [a[0]] + a[1..];
    }
  }

  lemma AfterSlash(t: string)
    ensures Segment("/" + t) == "" && HasDotSegment("/" + t) == HasDotSegment(t)
  {
    assert ("/" + t)[1..] == t;
  }

  // A path starting with a dot segment takes one of steps 2A to 2D.
  lemma DotSegmentForms(s: string)
    ensures Segment(s) == "." <==> s == "." || "./" <= s
    ensures Segment(s) == ".." <==> s == ".." || "../" <= s
  {
    var a := Segment(s);
    if s == "." || "./" <= s { SegmentOf(".", s[1..]); assert s == "." + s[1..]; }
    if s == ".." || "../" <= s { SegmentOf("..", s[2..]); assert s == ".." + s[2..]; }
    if a == "." { assert s[..1] == "."; }
    if a == ".." { assert s[..2] == ".."; }
  }

  lemma LeadingSlash(input: string)
    requires input != "" && input[0] == '/'
    ensures input == "/" + input[1..] && HasDotSegment(input) == HasDotSegment(input[1..])
    ensures Segment(input[1..]) == "." <==> input == "/." || "/./" <= input
    ensures Segment(input[1..]) == ".." <==> input == "/.." || "/../" <= input
  {
    assert input == "/" + input[1..];
    AfterSlash(input[1..]);
    DotSegmentForms(input[1..]);
    if "/./" <= input { assert input[..3] == "/./"; assert input[1..][..2] == "./"; }
    if "./" <= input[1..] { assert input[1..][..2] == "./"; assert input[..3] == "/./"; }
    if "/../" <= input { assert input[..4] == "/../"; assert input[1..][..3] == "../"; }
    if "../" <= input[1..] { assert input[1..][..3] == "../"; assert input[..4] == "/../"; }
  }

  // The move of step 2E, and what it leaves.
  function Step(input: string): (n: nat)
    requires input != ""
    ensures 0 < n <= |input| || (n == 0 && input[0] != '/' && Segment(input) == "")
    ensures n == |input| || input[n] == '/'
  {
    if input[0] == '/' then 1 + |Segment(input[1..])| else |Segment(input)|
  }

  // The segment the algorithm looks at next.
  function Front(input: string): string
    requires input != ""
  {
    if input[0] == '/' then Segment(input[1..]) else Segment(input)
  }

  lemma RestHasDots(s: string)
    requires !IsDot(Segment(s))
    ensures HasDotSegment(s) == HasDotSegment(s[|Segment(s)|..])
  {
    var n := |Segment(s)|;
    if n < |s| {
      assert s[n..] == "/" + s[n + 1..];
      AfterSlash(s[n + 1..]);
    }
  }

  lemma StepKeepsDots(input: string)
    requires input != "" && !IsDot(Front(input))
    ensures HasDotSegment(input) == HasDotSegment(input[Step(input)..])
  {
    hide HasDotSegment, IsDot, Segment;
    if input[0] == '/' {
      LeadingSlash(input);
      RestHasDots(input[1..]);
      assert input[1..][|Segment(input[1..])|..] == input[Step(input)..];
    } else {
      RestHasDots(input);
    }
  }

  lemma FrontNotDot(input: string)
    requires input != "" && !HasDotSegment(input)
    ensures !IsDot(Front(input))
  {
    if input[0] == '/' { LeadingSlash(input); }
  }

  lemma Moves(input: string, out: string)
    requires input != "" && !IsDot(Front(input))
    ensures Step(input) > 0 && RemoveDots(input, out) == RemoveDots(input[Step(input)..], out + input[..Step(input)])
  {
    hide Segment, HasDotSegment;
    if input[0] == '/' { LeadingSlash(input); } else { DotSegmentForms(input); StepMoves(input); }
  }

  lemma StepMoves(input: string)
    requires input != "" && input[0] != '/'
    ensures Step(input) > 0
  {
    assert Segment(input) == [input[0]] + Segment(input[1..]);
  }

  lemma NothingLeft(out: string)
    ensures RemoveDots("", out) == out
  {}

  lemma {:induction false} NoDotsUnchanged(input: string, out: string)
    requires !HasDotSegment(input)
    ensures RemoveDots(input, out) == out + input
    decreases |input|
  {
    hide HasDotSegment, RemoveDots, Step, Front, IsDot;
    if input == "" {
      NothingLeft(out);
      assert out + input == out;
    } else {
      FrontNotDot(input);
      Moves(input, out);
      StepKeepsDots(input);
      var n := Step(input);
      NoDotsUnchanged(input[n..], out + input[..n]);
      Rejoined(out, input, n);
    }
  }

  lemma Rejoined(out: string, input: string, n: nat)
    requires n <= |input|
    ensures out + input[..n] + input[n..] == out + input
  {}

  lemma {:induction false} RemoveDotsShrinks(input: string, out: string)
    ensures |RemoveDots(input, out)| <= |input| + |out|
    ensures HasDotSegment(input) ==> |RemoveDots(input, out)| < |input| + |out|
    decreases |input|
  {
    if input == "" {
    } else if "../" <= input { RemoveDotsShrinks(input[3..], out); }
    else if "./" <= input { RemoveDotsShrinks(input[2..], out); }
    else if "/./" <= input { RemoveDotsShrinks(input[2..], out); }
    else if input == "/." { RemoveDotsShrinks("/", out); }
    else if "/../" <= input { RemoveDotsShrinks(input[3..], DropLast(out)); }
    else if input == "/.." { RemoveDotsShrinks("/", DropLast(out)); }
    else if IsDot(input) { RemoveDotsShrinks("", out); }
    else {
      DotSegmentForms(input);
      if input[0] == '/' { LeadingSlash(input); }
      StepKeepsDots(input);
      Moves(input, out);
      var n := Step(input);
      RemoveDotsShrinks(input[n..], out + input[..n]);
    }
  }

  // RFC 3986's algorithm leaves a path alone exactly when no segment is "." or "..".
  lemma NormalExactlyWithoutDots(path: string)
    ensures RemoveDots(path, "") == path <==> !HasDotSegment(path)
  {
    if HasDotSegment(path) {
      RemoveDotsShrinks(path, "");
    } else {
      NoDotsUnchanged(path, "");
      assert "" + path == path;
    }
  }

  // ---- decoding ---------------------------------------------------------------------------------------

  lemma {:induction false} DecodeLower(s: string)
    ensures DecodeDots(Lower(s)) == Lower(DecodeDots(s))
    decreases |s|
  {
    if s != "" {
      if DotTriplet(s) {
        assert Lower(s)[3..] == Lower(s[3..]);
        DecodeLower(s[3..]);
      } else {
        assert Lower(s)[1..] == Lower(s[1..]);
        DecodeLower(s[1..]);
      }
    }
  }

  lemma {:induction false} SegmentLower(s: string)
    ensures Segment(Lower(s)) == Lower(Segment(s))
  {
    if s != "" {
      assert Lower(s)[1..] == Lower(s[1..]);
      SegmentLower(s[1..]);
    }
  }

  lemma DotLower(a: string)
    ensures IsDot(Lower(a)) == IsDot(a)
  {
    if |a| == 1 { assert Lower(a) == [LowerChar(a[0])]; }
    if |a| == 2 { assert Lower(a) == [LowerChar(a[0]), LowerChar(a[1])]; }
  }

  lemma {:induction false} HasDotLower(s: string)
    ensures HasDotSegment(Lower(s)) == HasDotSegment(s)
    decreases |s|
  {
    hide DecodeDots, Segment, IsDot, Lower;
    var n := |Segment(s)|;
    SegmentLower(s);
    DotLower(Segment(s));
    LowerLength(Segment(s));
    LowerLength(s);
    if n < |s| {
      LowerFrom(s, n + 1);
      HasDotLower(s[n + 1..]);
    }
  }

  lemma LowerLength(s: string)
    ensures |Lower(s)| == |s|
  {}

  lemma LowerFrom(s: string, n: nat)
    requires n <= |s|
    ensures n <= |Lower(s)| && Lower(s)[n..] == Lower(s[n..])
  {}

  lemma TripletAcross(a: string, b: string)
    requires a != "" && '/' !in a && (b == "" || b[0] == '/')
    ensures DotTriplet(a + b) == DotTriplet(a)
  {
    var s := a + b;
    if |a| < |s| { assert s[|a|] == '/'; }
    assert forall i | 0 <= i < |a| :: s[i] == a[i];
  }

  lemma DecodeUnfold(s: string)
    requires s != ""
    ensures DecodeDots(s) == if DotTriplet(s) then "." + DecodeDots(s[3..]) else [s[0]] + DecodeDots(s[1..])
  {}

  // A slash separates what is decoded on either side.
  lemma {:induction false} DecodeSplit(a: string, b: string)
    requires '/' !in a && (b == "" || b[0] == '/')
    ensures DecodeDots(a + b) == DecodeDots(a) + DecodeDots(b) && '/' !in DecodeDots(a)
    decreases |a|
  {
    if a == "" {
      assert a + b == b;
    } else {
      hide DecodeDots, DotTriplet;
      TripletAcross(a, b);
      DecodeUnfold(a);
      DecodeUnfold(a + b);
      TripletLong(a);
      var k := if DotTriplet(a) then 3 else 1;
      Suffix(a, b, k);
      DecodeSplit(a[k..], b);
      var head := if DotTriplet(a) then "." else [a[0]];
      Concatenated(head, DecodeDots(a[k..]), DecodeDots(b));
    }
  }

  lemma Suffix(a: string, b: string, k: nat)
    requires 0 < k <= |a| && '/' !in a
    ensures (a + b)[k..] == a[k..] + b && (a + b)[0] == a[0] && a[0] != '/' && '/' !in a[k..]
  {}

  lemma TripletLong(a: string)
    ensures DotTriplet(a) ==> |a| >= 3
  {}

  lemma DecodeSlash(t: string)
    ensures DecodeDots("/" + t) == "/" + DecodeDots(t)
  {
    assert ("/" + t)[1..] == t;
  }

  // The first segment of a decoded path is the decoded first segment.
  lemma DecodedSegments(s: string, n: nat)
    requires n <= |s| && '/' !in s[..n] && (n == |s| || s[n] == '/')
    ensures HasDotSegment(DecodeDots(s)) <==> IsDot(DecodeDots(s[..n])) || (n < |s| && HasDotSegment(DecodeDots(s[n + 1..])))
  {
    hide Segment, DecodeDots, IsDot;
    var a, b := s[..n], s[n..];
    SplitAt(s, n);
    DecodeSplit(a, b);
    if n < |s| {
      SlashFirst(s, n);
      DecodeSlash(s[n + 1..]);
      SplitTail(DecodeDots(a), DecodeDots(s[n + 1..]));
    } else {
      DecodeNothing();
    }
    SegmentOf(DecodeDots(a), DecodeDots(b));
    HasDotUnfold(DecodeDots(s));
  }

  lemma SlashFirst(s: string, n: nat)
    requires n < |s| && s[n] == '/'
    ensures s[n..] == "/" + s[n + 1..]
  {}

  lemma SplitTail(a: string, t: string)
    ensures (a + ("/" + t))[|a| + 1..] == t
  {}

  lemma HasDotUnfold(s: string)
    ensures var n := |Segment(s)|; HasDotSegment(s) <==> IsDot(Segment(s)) || (n < |s| && HasDotSegment(s[n + 1..]))
  {}

  // ---- IsSafeVirtualPath ----------------------------------------------------------------------------------

  // std::wstring::find for a non-empty pattern, |s| standing for npos.
  function Find(s: string, pattern: string, from: nat): (r: nat)
    requires pattern != "" && from <= |s|
    ensures from <= r <= |s| && (r < |s| ==> pattern <= s[r..])
    ensures forall k | from <= k < r :: !(pattern <= s[k..])
    decreases |s| - from
  {
    if from == |s| || pattern <= s[from..] then from else Find(s, pattern, from + 1)
  }

  predicate Occurs(s: string, pattern: string)
    requires pattern != ""
  {
    Find(s, pattern, 0) < |s|
  }

  lemma DecodeUpTo(s: string, at: nat, next: nat)
    requires at <= next <= |s| && forall k | at <= k < next :: !DotTriplet(s[k..])
    ensures DecodeDots(s[at..]) == s[at..next] + DecodeDots(s[next..])
    decreases next - at
  {
    if at < next {
      assert s[at..][1..] == s[at + 1..];
      DecodeUpTo(s, at + 1, next);
      assert s[at..next] == [s[at]] + s[at + 1..next];
    } else {
      assert s[at..next] == "";
    }
  }

  // No upper-case letter.
  predicate Folded(s: string) {
    forall i | 0 <= i < |s| :: LowerChar(s[i]) == s[i]
  }

  lemma TripletFolded(s: string, k: nat)
    requires Folded(s) && k <= |s|
    ensures DotTriplet(s[k..]) <==> "%2e" <= s[k..]
  {
    var t := s[k..];
    if |t| >= 3 {
      assert t[2] == s[k + 2];
      assert "%2e" <= t <==> t[0] == '%' && t[1] == '2' && t[2] == 'e';
    }
  }

  lemma NoTripletBefore(s: string, at: nat, next: nat)
    requires Folded(s) && at <= |s| && next == Find(s, "%2e", at)
    ensures forall k | at <= k < next :: !DotTriplet(s[k..])
    ensures next < |s| ==> DotTriplet(s[next..]) && next + 3 <= |s|
  {
    hide Folded, DotTriplet;
    forall k | at <= k < next ensures !DotTriplet(s[k..]) { TripletFolded(s, k); }
    TripletFolded(s, next);
    TripletLong(s[next..]);
  }

  // Replaces each %2e of a folded segment, in place.
  method DecodeSegment(original: string) returns (segment: string)
    requires Folded(original)
    ensures segment == DecodeDots(original)
  {
    hide DotTriplet, DecodeDots;
    segment := original;
    var at := 0;
    assert original[..0] == "" && original[0..] == original;
    while true
      invariant at <= |segment| && Folded(segment)
      invariant segment[..at] + DecodeDots(segment[at..]) == DecodeDots(original)
      decreases |segment|
    {
      var next := Find(segment, "%2e", at);
      NoTripletBefore(segment, at, next);
      DecodedUpTo(segment, at, next);
      if next == |segment| {
        DecodeNothing();
        assert segment[next..] == "" && segment[..next] == segment;
        break;
      }
      ReplacedAt(segment, next);
      segment := segment[..next] + "." + segment[next + 3..];
      at := next + 1;
    }
  }

  // Nothing before the next triplet changes.
  lemma DecodedUpTo(s: string, at: nat, next: nat)
    requires at <= next <= |s| && forall k | at <= k < next :: !DotTriplet(s[k..])
    ensures s[..at] + DecodeDots(s[at..]) == s[..next] + DecodeDots(s[next..])
  {
    hide DecodeDots, DotTriplet;
    DecodeUpTo(s, at, next);
    Concatenated(s[..at], s[at..next], DecodeDots(s[next..]));
    assert s[..at] + s[at..next] == s[..next];
  }

  // One step of the loop.
  lemma ReplacedAt(s: string, next: nat)
    requires Folded(s) && next + 3 <= |s| && DotTriplet(s[next..])
    ensures var t, at := s[..next] + "." + s[next + 3..], next + 1;
            |t| < |s| && Folded(t) && at <= |t| && t[..at] + DecodeDots(t[at..]) == s[..next] + DecodeDots(s[next..])
  {
    hide DecodeDots, DotTriplet;
    var t, at := s[..next] + "." + s[next + 3..], next + 1;
    DecodeUnfold(s[next..]);
    assert s[next..][3..] == s[next + 3..];
    assert t[..at] == s[..next] + "." && t[at..] == s[next + 3..];
    Concatenated(s[..next], ".", DecodeDots(s[next + 3..]));
  }

  lemma DecodeNothing()
    ensures DecodeDots("") == ""
  {}

  lemma LowerFolded(s: string)
    ensures Folded(Lower(s))
  {}

  // A path is safe exactly when it encodes no slash and, its encoded dots decoded, RFC 3986's
  // remove_dot_segments leaves it unchanged.
  method IsSafeVirtualPath(path: string) returns (safe: bool)
    ensures safe <==> !Occurs(Lower(path), "%2f") && !Occurs(Lower(path), "%5c") && Normalised(path) == DecodeDots(path)
  {
    hide Segment, HasDotSegment, DecodeDots, Folded, RemoveDots;
    var lowered := "";
    for i := 0 to |path|
      invariant lowered == Lower(path)[..i]
    {
      lowered := lowered + [LowerChar(path[i])];
    }
    assert lowered == Lower(path);
    LowerFolded(path);
    DecodeLower(path);
    HasDotLower(DecodeDots(path));
    NormalExactlyWithoutDots(DecodeDots(path));
    if Find(lowered, "%2f", 0) < |lowered| || Find(lowered, "%5c", 0) < |lowered| { return false; }
    var dotted := HasDotSegments(lowered);
    return !dotted;
  }

  // The segment loop: whether any segment, decoded, is a dot segment.
  method HasDotSegments(lowered: string) returns (dotted: bool)
    requires Folded(lowered)
    ensures dotted == HasDotSegment(DecodeDots(lowered))
  {
    hide Segment, HasDotSegment, DecodeDots, Folded;
    var start := 0;
    assert lowered[0..] == lowered;
    while start <= |lowered|
      invariant start <= |lowered|
      invariant HasDotSegment(DecodeDots(lowered)) == HasDotSegment(DecodeDots(lowered[start..]))
      decreases |lowered| - start
    {
      var end := Find(lowered, "/", start);
      SegmentEnds(lowered, start, end);
      var segment := DecodeSegment(lowered[start..end]);
      DecodedSegments(lowered[start..], end - start);
      if segment == "." || segment == ".." { return true; }
      if end == |lowered| { break; }
      start := end + 1;
    }
    return false;
  }

  lemma SegmentEnds(s: string, start: nat, end: nat)
    requires start <= |s| && end == Find(s, "/", start) && Folded(s)
    ensures '/' !in s[start..][..end - start] && s[start..][..end - start] == s[start..end] && Folded(s[start..end])
    ensures end < |s| ==> s[start..][end - start] == '/' && s[start..][end - start + 1..] == s[end + 1..]
  {
    forall k | start <= k < end ensures s[k] != '/' { NoSlashAt(s, k); }
    if end < |s| { SlashAt(s, end); }
  }

  lemma NoSlashAt(s: string, k: nat)
    requires k < |s| && !("/" <= s[k..])
    ensures s[k] != '/'
  {
    assert s[k..][..1] == [s[k]];
  }

  lemma SlashAt(s: string, k: nat)
    requires k < |s| && "/" <= s[k..]
    ensures s[k] == '/'
  {
    assert s[k..][0] == "/"[0];
  }

  // ---- documents --------------------------------------------------------------------------------------

  const SCHEME := "https://"

  datatype HttpsUri = HttpsUri(host: string, path: string)

  // std::wstring_view::find_first_of.
  function FindAny(s: string, chars: string, from: nat): (r: nat)
    requires from <= |s|
    ensures from <= r <= |s| && (r < |s| ==> s[r] in chars)
    ensures forall k | from <= k < r :: s[k] !in chars
    decreases |s| - from
  {
    if from == |s| || s[from] in chars then from else FindAny(s, chars, from + 1)
  }

  function ParseHttpsUri(uri: string): Option<HttpsUri> {
    if |uri| < |SCHEME| || !SameFolded(uri[..|SCHEME|], SCHEME) || '\\' in uri then None else
    var end := FindAny(uri, "/?#", |SCHEME|);
    var authority := uri[|SCHEME|..end];
    if authority == "" || FindAny(authority, "@:", 0) < |authority| then None
    else if end == |uri| || uri[end] != '/' then Some(HttpsUri(Lower(authority), "/"))
    else Some(HttpsUri(Lower(authority), uri[end..FindAny(uri, "?#", end)]))
  }

  // Where the authority of a URL stops: nothing that ends or splits an authority occurs in it.
  predicate AuthorityEnds(uri: string, a: nat) {
    && |SCHEME| < a <= |uri| && (a < |uri| ==> uri[a] in "/?#")
    && forall k | |SCHEME| <= k < a :: uri[k] !in "/?#@:" && uri[k] != '\\'
  }

  // The path runs up to the query or fragment; without one it is "/".
  predicate PathFrom(uri: string, a: nat, path: string) {
    if a < |uri| && uri[a] == '/'
    then a + |path| <= |uri| && path == uri[a..a + |path|] && (a + |path| < |uri| ==> uri[a + |path|] in "?#")
    else path == "/"
  }

  // The parts are where the URL syntax of RFC 3986 section 3 puts them: scheme, authority without user
  // information or port, path.
  lemma ParsedParts(uri: string)
    requires ParseHttpsUri(uri).Some?
    ensures var p := ParseHttpsUri(uri).value; var a := |SCHEME| + |p.host|;
            && AuthorityEnds(uri, a) && SameFolded(uri[..|SCHEME|], SCHEME) && p.host == Lower(uri[|SCHEME|..a])
            && PathFrom(uri, a, p.path) && p.path != "" && p.path[0] == '/' && '?' !in p.path && '#' !in p.path
  {
    hide Lower, FindAny;
    var end := FindAny(uri, "/?#", |SCHEME|);
    AuthorityIsClean(uri, end);
    if end < |uri| && uri[end] == '/' { PathIsClean(uri, end); }
  }

  lemma AuthorityIsClean(uri: string, end: nat)
    requires |SCHEME| <= |uri| && '\\' !in uri && end == FindAny(uri, "/?#", |SCHEME|) && uri[|SCHEME|..end] != ""
    requires FindAny(uri[|SCHEME|..end], "@:", 0) == |uri[|SCHEME|..end]|
    ensures AuthorityEnds(uri, end)
  {
    hide FindAny;
    var authority := uri[|SCHEME|..end];
    forall k | |SCHEME| <= k < end ensures uri[k] !in "/?#@:" && uri[k] != '\\' {
      assert authority[k - |SCHEME|] == uri[k] && uri[k] in uri;
    }
  }

  lemma PathIsClean(uri: string, end: nat)
    requires end < |uri| && uri[end] == '/'
    ensures var path := uri[end..FindAny(uri, "?#", end)];
            PathFrom(uri, end, path) && path != "" && path[0] == '/' && '?' !in path && '#' !in path
  {
    hide FindAny;
    var stop := FindAny(uri, "?#", end);
    assert uri[end] !in "?#";
    assert forall c | c in uri[end..stop] :: c !in "?#";
  }

  predicate SafePath(path: string) {
    !Occurs(Lower(path), "%2f") && !Occurs(Lower(path), "%5c") && Normalised(path) == DecodeDots(path)
  }

  function Root(modId: string, viewName: string): string {
    "/" + modId + "/" + viewName
  }

  predicate Trusted(uri: string, host: string, modId: string, viewName: string) {
    var parsed := ParseHttpsUri(uri);
    && parsed.Some? && SafePath(parsed.value.path) && SameFolded(parsed.value.host, host) && modId != "" && viewName != ""
    && (parsed.value.path == Root(modId, viewName) || Root(modId, viewName) + "/" <= parsed.value.path)
  }

  method IsTrustedViewDocumentUri(uri: string, host: string, modId: string, viewName: string) returns (trusted: bool)
    ensures trusted == Trusted(uri, host, modId, viewName)
  {
    var parsed := ParseHttpsUri(uri);
    if parsed.None? { return false; }
    var safe := IsSafeVirtualPath(parsed.value.path);
    if !safe || !SameFolded(parsed.value.host, host) || modId == "" || viewName == "" { return false; }
    var root := "/" + modId + "/" + viewName;
    return parsed.value.path == root || root + "/" <= parsed.value.path;
  }

  lemma {:induction false} DecodePlain(s: string)
    requires '%' !in s
    ensures DecodeDots(s) == s
  {
    if s != "" {
      assert s[0] in s;
      DecodePlain(s[1..]);
    }
  }

  // A trusted document is still under its view's root after normalisation: no dot segment, plain or encoded,
  // leads out of it. Mod ids and view names hold no percent sign.
  lemma TrustedStaysUnderItsRoot(uri: string, host: string, modId: string, viewName: string)
    requires Trusted(uri, host, modId, viewName) && '%' !in modId && '%' !in viewName
    ensures var path := Normalised(ParseHttpsUri(uri).value.path);
            path == Root(modId, viewName) || Root(modId, viewName) + "/" <= path
    ensures !HasDotSegment(Normalised(ParseHttpsUri(uri).value.path))
  {
    hide DecodeDots, RemoveDots, HasDotSegment, ParseHttpsUri, Occurs, Lower, SameFolded;
    var path, root := ParseHttpsUri(uri).value.path, Root(modId, viewName);
    DecodePlain(root);
    NormalExactlyWithoutDots(DecodeDots(path));
    if path != root {
      var rest := path[|root| + 1..];
      assert path == root + ("/" + rest);
      DecodeAfter(root, "/" + rest);
      DecodeSlash(rest);
    }
  }

  // Decoding starts afresh at a slash.
  lemma {:induction false} DecodeAfter(a: string, b: string)
    requires b != "" && b[0] == '/'
    ensures DecodeDots(a + b) == DecodeDots(a) + DecodeDots(b)
    decreases |a|
  {
    hide DecodeDots, Segment;
    var head := Segment(a);
    var n := |head|;
    if n == |a| {
      DecodeSplit(a, b);
    } else {
      var tail := a[n + 1..];
      assert a[..n] == head;
      AtSlash(a, n, b);
      DecodeSplit(head, "/" + tail);
      DecodeSplit(head, "/" + (tail + b));
      DecodeSlash(tail);
      DecodeSlash(tail + b);
      DecodeAfter(tail, b);
      Regroup(DecodeDots(head), DecodeDots(tail), DecodeDots(b));
    }
  }

  lemma AtSlash(a: string, n: nat, b: string)
    requires n < |a| && a[n] == '/'
    ensures a == a[..n] + ("/" + a[n + 1..]) && a + b == a[..n] + ("/" + (a[n + 1..] + b))
  {}

  lemma Regroup(x: string, y: string, z: string)
    ensures x + ("/" + (y + z)) == x + ("/" + y) + z
  {}
}
