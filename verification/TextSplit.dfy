/** The text helpers of the definition cache: splitting at a delimiter, line-ending
    normalisation and taking service and action definitions apart. */
module TextSplit {
  import opened Wrappers

  // ---------------------------------------------------------------- searching

  predicate OccursAt(s: string, d: string, i: nat) {
    i + |d| <= |s| && forall k | 0 <= k < |d| :: d[k] == s[i + k]
  }

  ghost predicate Occurs(s: string, d: string) { exists i: nat :: OccursAt(s, d, i) }

  /** `std::string::find` */
  function Find(s: string, d: string, from: nat): (r: Option<nat>)
    requires from <= |s|
    ensures r.Some? ==> from <= r.value && OccursAt(s, d, r.value)
    decreases |s| - from
  {
    if OccursAt(s, d, from) then Some(from)
    else if from == |s| then None
    else Find(s, d, from + 1)
  }

  ghost predicate First(s: string, d: string, from: nat, i: nat) {
    from <= i && OccursAt(s, d, i) && forall j: nat | from <= j < i :: !OccursAt(s, d, j)
  }

  ghost predicate Absent(s: string, d: string, from: nat) { forall j: nat | from <= j :: !OccursAt(s, d, j) }

  /** The position found is the first one; when there is none, `d` does not occur. */
  lemma {:induction false} FindFirst(s: string, d: string, from: nat)
    requires from <= |s|
    ensures Find(s, d, from).Some? ==> First(s, d, from, Find(s, d, from).value)
    ensures Find(s, d, from).None? ==> Absent(s, d, from)
    decreases |s| - from
  {
    if !OccursAt(s, d, from) && from < |s| { FindFirst(s, d, from + 1); }
  }

  lemma {:induction false} OccursOne(s: string, c: char, i: nat)
    ensures OccursAt(s, [c], i) <==> i < |s| && s[i] == c
  {
    assert [c][0] == c;
  }

  // ---------------------------------------------------------------- splitting

  /** The pieces of `s` from `prev` on. */
  function SplitFrom(s: string, d: string, prev: nat): (r: seq<string>)
    requires d != "" && prev <= |s|
    ensures r != []
    decreases |s| - prev
  {
    match Find(s, d, prev)
    case None => [s[prev..]]
    case Some(pos) => [s[prev..pos]] + SplitFrom(s, d, pos + |d|)
  }

  function Split(s: string, d: string): (r: seq<string>)
    requires d != ""
    ensures r != []
  {
    SplitFrom(s, d, 0)
  }

  /** `split_string` */
  method SplitString(s: string, d: string) returns (pieces: seq<string>)
    requires d != ""
    ensures pieces == Split(s, d)
  {
    pieces := [];
    var prev := 0;
    var found := Find(s, d, prev);
    while found.Some?
      invariant prev <= |s| && found == Find(s, d, prev)
      invariant pieces + SplitFrom(s, d, prev) == Split(s, d)
      decreases |s| - prev
    {
      var pos := found.value;
      SplitStep(pieces, s, d, prev);
      pieces := pieces + [s[prev..pos]];
      prev := pos + |d|;
      found := Find(s, d, prev);
    }
    pieces := pieces + [s[prev..]];
  }

  lemma {:induction false} SplitStep(pieces: seq<string>, s: string, d: string, prev: nat)
    requires d != "" && prev <= |s| && Find(s, d, prev).Some?
    ensures var pos := Find(s, d, prev).value;
            pieces + SplitFrom(s, d, prev) == pieces + [s[prev..pos]] + SplitFrom(s, d, pos + |d|)
  {
  }

  function Join(pieces: seq<string>, d: string): string
    requires pieces != []
  {
    if |pieces| == 1 then pieces[0] else pieces[0] + d + Join(pieces[1..], d)
  }

  lemma {:induction false} SliceWithout(s: string, d: string, a: nat, b: nat)
    requires d != "" && a <= b <= |s| && forall j: nat | a <= j < b :: !OccursAt(s, d, j)
    ensures !Occurs(s[a..b], d)
  {
    forall i: nat ensures !OccursAt(s[a..b], d, i) {
      if i + |d| <= b - a {
        assert !OccursAt(s, d, a + i);
      }
    }
  }

  lemma {:induction false} JoinSplitFrom(s: string, d: string, prev: nat)
    requires d != "" && prev <= |s|
    ensures Join(SplitFrom(s, d, prev), d) == s[prev..]
    decreases |s| - prev
  {
    match Find(s, d, prev)
    case None =>
    case Some(pos) =>
      JoinSplitFrom(s, d, pos + |d|);
      JoinFirst(s, d, prev, pos, SplitFrom(s, d, pos + |d|));
  }

  lemma {:induction false} JoinFirst(s: string, d: string, a: nat, b: nat, rest: seq<string>)
    requires a <= b && OccursAt(s, d, b) && rest != [] && Join(rest, d) == s[b + |d|..]
    ensures Join([s[a..b]] + rest, d) == s[a..]
  {
    assert ([s[a..b]] + rest)[1..] == rest;
    Cut(s, d, a, b);
  }

  lemma {:induction false} PiecesWithout(s: string, d: string, prev: nat)
    requires d != "" && prev <= |s|
    ensures forall k | 0 <= k < |SplitFrom(s, d, prev)| :: !Occurs(SplitFrom(s, d, prev)[k], d)
    decreases |s| - prev
  {
    FindFirst(s, d, prev);
    match Find(s, d, prev)
    case None =>
      SliceWithout(s, d, prev, |s|);
      assert s[prev..|s|] == s[prev..];
    case Some(pos) =>
      SliceWithout(s, d, prev, pos);
      PiecesWithout(s, d, pos + |d|);
  }

  lemma {:induction false} Cut(s: string, d: string, a: nat, b: nat)
    requires a <= b && OccursAt(s, d, b)
    ensures s[a..] == s[a..b] + d + s[b + |d|..]
  {
  }

  /** Joining the pieces restores the text, and no piece contains the delimiter. */
  lemma {:induction false} JoinSplit(s: string, d: string)
    requires d != ""
    ensures Join(Split(s, d), d) == s
    ensures forall k | 0 <= k < |Split(s, d)| :: !Occurs(Split(s, d)[k], d)
  {
    JoinSplitFrom(s, d, 0);
    PiecesWithout(s, d, 0);
  }

  /** For a one-character delimiter the pieces are the only ones with that property. */
  lemma {:induction false} SplitJoin(pieces: seq<string>, c: char)
    requires pieces != [] && forall k | 0 <= k < |pieces| :: c !in pieces[k]
    ensures Split(Join(pieces, [c]), [c]) == pieces
    decreases |pieces|
  {
    var s := Join(pieces, [c]);
    if |pieces| == 1 {
      forall i: nat ensures !OccursAt(s, [c], i) { OccursOne(s, c, i); }
      assert s[0..] == s;
    } else {
      SplitJoin(pieces[1..], c);
      SplitFirst(pieces[0], c, Join(pieces[1..], [c]));
      assert pieces == [pieces[0]] + pieces[1..];
    }
  }

  lemma {:induction false} SplitFirst(p: string, c: char, rest: string)
    requires c !in p
    ensures Split(p + [c] + rest, [c]) == [p] + Split(rest, [c])
  {
    var s := p + [c] + rest;
    FindAfter(p, c, rest);
    SplitShift(s, [c], |p| + 1);
    assert s[|p| + 1..] == rest;
    assert s[0..|p|] == p;
  }

  lemma {:induction false} FindAfter(p: string, c: char, rest: string)
    requires c !in p
    ensures Find(p + [c] + rest, [c], 0) == Some(|p|)
  {
    var s := p + [c] + rest;
    OccursOne(s, c, |p|);
    forall j: nat | j < |p| ensures !OccursAt(s, [c], j) {
      OccursOne(s, c, j);
      assert s[j] == p[j];
    }
    FirstFound(s, [c], 0, |p|);
  }

  lemma {:induction false} FirstFound(s: string, d: string, from: nat, i: nat)
    requires First(s, d, from, i)
    ensures Find(s, d, from) == Some(i)
  {
    FindFirst(s, d, from);
  }

  lemma {:induction false} FindShift(s: string, d: string, k: nat, from: nat)
    requires k + from <= |s|
    ensures Find(s, d, k + from).None? == Find(s[k..], d, from).None?
    ensures Find(s[k..], d, from).Some? ==> Find(s, d, k + from) == Some(k + Find(s[k..], d, from).value)
    decreases |s| - k - from
  {
    OccursShift(s, d, k, from);
    if !OccursAt(s, d, k + from) && k + from < |s| { FindShift(s, d, k, from + 1); }
  }

  lemma {:induction false} OccursShift(s: string, d: string, k: nat, i: nat)
    requires k + i <= |s|
    ensures OccursAt(s, d, k + i) <==> OccursAt(s[k..], d, i)
  {
    var t := s[k..];
    if k + i + |d| <= |s| { assert forall j | 0 <= j < |d| :: d[j] == t[i + j] <==> d[j] == s[k + i + j]; }
  }

  lemma {:induction false} SplitFromShift(s: string, t: string, d: string, k: nat, prev: nat)
    requires d != "" && k + prev <= |s| && t == s[k..]
    ensures SplitFrom(s, d, k + prev) == SplitFrom(t, d, prev)
    decreases |s| - k - prev
  {
    var found := Find(t, d, prev);
    if found.None? {
      ShiftEnd(s, t, d, k, prev);
    } else {
      SplitFromShift(s, t, d, k, found.value + |d|);
      ShiftStep(s, t, d, k, prev, found.value);
    }
  }

  lemma {:induction false} ShiftEnd(s: string, t: string, d: string, k: nat, prev: nat)
    requires d != "" && k + prev <= |s| && t == s[k..] && Find(t, d, prev).None?
    ensures SplitFrom(s, d, k + prev) == SplitFrom(t, d, prev)
  {
    FindShift(s, d, k, prev);
    RestOfRest(s, k, prev);
  }

  lemma {:induction false} ShiftStep(s: string, t: string, d: string, k: nat, prev: nat, pos: nat)
    requires d != "" && k + prev <= |s| && t == s[k..] && Find(t, d, prev) == Some(pos)
    requires k + pos + |d| <= |s| && SplitFrom(s, d, k + (pos + |d|)) == SplitFrom(t, d, pos + |d|)
    ensures SplitFrom(s, d, k + prev) == SplitFrom(t, d, prev)
  {
    FindShift(s, d, k, prev);
    SliceOfRest(s, k, prev, pos);
    SplitFromSame(s, d, k + prev, k + pos, t, prev, pos);
  }

  lemma {:induction false} SplitFromSame(s: string, d: string, a: nat, p: nat, t: string, b: nat, q: nat)
    requires d != "" && a <= |s| && b <= |t| && Find(s, d, a) == Some(p) && Find(t, d, b) == Some(q)
    requires s[a..p] == t[b..q] && SplitFrom(s, d, p + |d|) == SplitFrom(t, d, q + |d|)
    ensures SplitFrom(s, d, a) == SplitFrom(t, d, b)
  {
  }

  lemma {:induction false} RestOfRest(s: string, k: nat, a: nat)
    requires k + a <= |s|
    ensures s[k..][a..] == s[k + a..]
  {
  }

  lemma {:induction false} SliceOfRest(s: string, k: nat, a: nat, b: nat)
    requires k <= |s| && a <= b <= |s| - k
    ensures s[k..][a..b] == s[k + a..k + b]
  {
  }

  lemma {:induction false} SplitShift(s: string, d: string, k: nat)
    requires d != "" && k <= |s|
    ensures SplitFrom(s, d, k) == Split(s[k..], d)
  {
    SplitFromShift(s, s[k..], d, k, 0);
  }

  // ------------------------------------------------------------- line endings

  const CRLF := "\r\n"

  predicate CrlfAt(s: string, i: nat) { i + 1 < |s| && s[i] == '\r' && s[i + 1] == '\n' }

  lemma {:induction false} OccursCrlf(s: string, i: nat)
    ensures OccursAt(s, CRLF, i) <==> CrlfAt(s, i)
  {
    assert CRLF[0] == '\r' && CRLF[1] == '\n';
  }

  /** One pass: CR LF and a lone CR both become LF. */
  function Normal(s: string): string {
    if s == "" then ""
    else if CrlfAt(s, 0) then "\n" + Normal(s[2..])
    else if s[0] == '\r' then "\n" + Normal(s[1..])
    else [s[0]] + Normal(s[1..])
  }

  /** What the first loop leaves: every CR LF is an LF, read from the left. */
  function Crlf(s: string): string {
    if s == "" then ""
    else if CrlfAt(s, 0) then "\n" + Crlf(s[2..])
    else [s[0]] + Crlf(s[1..])
  }

  /** What the second loop leaves. */
  function Cr(s: string): string {
    if s == "" then "" else (if s[0] == '\r' then "\n" else [s[0]]) + Cr(s[1..])
  }

  lemma {:induction false} CrCrlf(s: string)
    ensures Cr(Crlf(s)) == Normal(s)
  {
    if s != "" {
      if CrlfAt(s, 0) {
        CrCrlf(s[2..]);
        assert ("\n" + Crlf(s[2..]))[1..] == Crlf(s[2..]);
      } else {
        CrCrlf(s[1..]);
        assert ([s[0]] + Crlf(s[1..]))[1..] == Crlf(s[1..]);
      }
    }
  }

  lemma {:induction false} CrlfSkip(s: string, n: nat)
    requires n <= |s| && forall j: nat | j < n :: !CrlfAt(s, j)
    ensures Crlf(s) == s[..n] + Crlf(s[n..])
    decreases n
  {
    if n == 0 {
      assert s[0..] == s;
    } else {
      var t := s[1..];
      forall j: nat | j < n - 1 ensures !CrlfAt(t, j) { assert !CrlfAt(s, j + 1); }
      CrlfSkip(t, n - 1);
      FirstAndRest(s, n, Crlf(t[n - 1..]));
    }
  }

  lemma {:induction false} FirstAndRest(s: string, n: nat, tail: string)
    requires 0 < n <= |s|
    ensures s[1..][n - 1..] == s[n..]
    ensures [s[0]] + (s[1..][..n - 1] + tail) == s[..n] + tail
  {
    RestOfRest(s, 1, n - 1);
    assert s[..n] == [s[0]] + s[1..][..n - 1];
  }

  lemma {:induction false} CrSkip(s: string, n: nat)
    requires n <= |s| && '\r' !in s[..n]
    ensures Cr(s) == s[..n] + Cr(s[n..])
    decreases n
  {
    if n == 0 {
      assert s[0..] == s;
    } else {
      assert s[0] in s[..n];
      assert s[1..][..n - 1] == s[..n][1..];
      CrSkip(s[1..], n - 1);
      FirstAndRest(s, n, Cr(s[1..][n - 1..]));
    }
  }

  /** The two in-place loops; the search position never moves past a replacement, so
      the text gets shorter or loses a CR with every round. */
  method Normalize(s: string) returns (text: string)
    ensures text == Normal(s)
  {
    text := ReplaceCrlf(s);
    text := ReplaceCr(text);
    CrCrlf(s);
  }

  method ReplaceCrlf(s: string) returns (text: string)
    ensures text == Crlf(s)
  {
    text := s;
    var pos := 0;
    var found := Find(text, CRLF, pos);
    while found.Some?
      invariant pos <= |text| && found == Find(text, CRLF, pos)
      invariant text[..pos] + Crlf(text[pos..]) == Crlf(s)
      decreases |text|
    {
      ghost var before := text;
      ghost var from := pos;
      pos := found.value;
      text := text[..pos] + "\n" + text[pos + 2..];
      FindFirst(before, CRLF, from);
      CrlfStep(before, from, pos);
      assert text[..pos] == before[..pos] && text[pos..] == "\n" + before[pos + 2..];
      found := Find(text, CRLF, pos);
    }
    FindFirst(text, CRLF, pos);
    NoCrlf(text, pos);
  }

  lemma {:induction false} CrlfStep(s: string, from: nat, pos: nat)
    requires First(s, CRLF, from, pos)
    ensures s[..from] + Crlf(s[from..]) == s[..pos] + Crlf("\n" + s[pos + 2..])
  {
    var t := s[from..];
    NoCrlfBefore(s, from, pos);
    CrlfSkip(t, pos - from);
    RestOfRest(s, from, pos - from);
    CrlfFirst(s, pos);
    assert s[..pos] == s[..from] + t[..pos - from];
  }

  lemma {:induction false} NoCrlfBefore(s: string, from: nat, pos: nat)
    requires from <= pos <= |s| && forall j: nat | from <= j < pos :: !OccursAt(s, CRLF, j)
    ensures forall j: nat | j < pos - from :: !CrlfAt(s[from..], j)
  {
    forall j: nat | j < pos - from ensures !CrlfAt(s[from..], j) {
      assert !OccursAt(s, CRLF, from + j);
      OccursCrlf(s, from + j);
    }
  }

  lemma {:induction false} CrlfFirst(s: string, pos: nat)
    requires OccursAt(s, CRLF, pos)
    ensures Crlf(s[pos..]) == Crlf("\n" + s[pos + 2..])
  {
    OccursCrlf(s, pos);
    assert CrlfAt(s[pos..], 0) && s[pos..][2..] == s[pos + 2..];
    assert ("\n" + s[pos + 2..])[1..] == s[pos + 2..];
  }

  lemma {:induction false} NoCrlf(s: string, pos: nat)
    requires pos <= |s| && Absent(s, CRLF, pos)
    ensures s[..pos] + Crlf(s[pos..]) == s
  {
    var t := s[pos..];
    NoCrlfBefore(s, pos, |s|);
    CrlfSkip(t, |t|);
    assert t[|t|..] == "" && t[..|t|] == t;
  }

  method ReplaceCr(s: string) returns (text: string)
    ensures text == Cr(s)
  {
    text := s;
    var pos := 0;
    var found := Find(text, "\r", pos);
    while found.Some?
      invariant pos <= |text| == |s| && found == Find(text, "\r", pos)
      invariant text[pos..] == s[pos..] || (pos < |s| && text[pos..] == "\n" + s[pos + 1..])
      invariant text[..pos] + Cr(text[pos..]) == Cr(s)
      decreases Crs(text)
    {
      ghost var before := text;
      ghost var from := pos;
      pos := found.value;
      text := text[..pos] + "\n" + text[pos + 1..];
      FindFirst(before, "\r", from);
      CrStep(before, from, pos);
      CrReplaced(before, pos);
      found := Find(text, "\r", pos);
    }
    FindFirst(text, "\r", pos);
    NoCr(text, pos);
  }

  ghost function Crs(s: string): nat { multiset(s)['\r'] }

  lemma {:induction false} CrStep(s: string, from: nat, pos: nat)
    requires First(s, "\r", from, pos)
    ensures s[..from] + Cr(s[from..]) == s[..pos] + Cr("\n" + s[pos + 1..])
  {
    var t := s[from..];
    NoneBefore(s, from, pos);
    CrSkip(t, pos - from);
    RestOfRest(s, from, pos - from);
    CrFirst(s, pos);
    assert s[..pos] == s[..from] + t[..pos - from];
  }

  lemma {:induction false} NoneBefore(s: string, from: nat, pos: nat)
    requires from <= pos <= |s| && forall j: nat | from <= j < pos :: !OccursAt(s, "\r", j)
    ensures '\r' !in s[from..][..pos - from]
  {
    var t := s[from..][..pos - from];
    forall j | 0 <= j < |t| ensures t[j] != '\r' {
      assert !OccursAt(s, "\r", from + j);
      OccursOne(s, '\r', from + j);
    }
  }

  lemma {:induction false} CrFirst(s: string, pos: nat)
    requires OccursAt(s, "\r", pos)
    ensures Cr(s[pos..]) == Cr("\n" + s[pos + 1..])
  {
    OccursOne(s, '\r', pos);
    assert s[pos..][1..] == s[pos + 1..];
    assert ("\n" + s[pos + 1..])[1..] == s[pos + 1..];
  }

  lemma {:induction false} CrReplaced(s: string, pos: nat)
    requires OccursAt(s, "\r", pos)
    ensures var t := s[..pos] + "\n" + s[pos + 1..]; t[..pos] == s[..pos] && t[pos..] == "\n" + s[pos + 1..] && Crs(t) < Crs(s)
  {
    OccursOne(s, '\r', pos);
    assert s == s[..pos] + "\r" + s[pos + 1..];
  }

  lemma {:induction false} NoCr(s: string, pos: nat)
    requires pos <= |s| && Absent(s, "\r", pos)
    ensures s[..pos] + Cr(s[pos..]) == s
  {
    var t := s[pos..];
    NoneBefore(s, pos, |s|);
    CrSkip(t, |t|);
    assert t[|t|..] == "" && t[..|t|] == t;
  }

  // ------------------------------------------------- services and actions

  const SEPARATOR := "---"

  function Terminated(lines: seq<string>): string
    decreases |lines|
  {
    if lines == [] then "" else Terminated(lines[..|lines| - 1]) + (lines[|lines| - 1] + "\n")
  }

  /** The lines before the first separator. */
  function Request(lines: seq<string>): seq<string>
    decreases |lines|
  {
    if lines == [] then []
    else
      var init := lines[..|lines| - 1];
      if SEPARATOR in lines then Request(init) else init + [lines[|lines| - 1]]
  }

  /** The lines after it, further separators left out. */
  function Response(lines: seq<string>): seq<string>
    decreases |lines|
  {
    if lines == [] then []
    else
      var init, last := lines[..|lines| - 1], lines[|lines| - 1];
      Response(init) + if SEPARATOR in init && last != SEPARATOR then [last] else []
  }

  /** All lines that are no separator. */
  function Plain(lines: seq<string>): seq<string>
    decreases |lines|
  {
    if lines == [] then []
    else
      var last := lines[|lines| - 1];
      Plain(lines[..|lines| - 1]) + if last == SEPARATOR then [] else [last]
  }

  /** `split_service_definition`: a single line that is no separator is rejected. */
  function SplitService(text: string): Option<(string, string)> {
    var lines := Split(Normal(text), "\n");
    if |lines| == 1 && lines[0] != SEPARATOR then None
    else Some((Terminated(Request(lines)), Terminated(Response(lines))))
  }

  lemma {:induction false} PlainLines(lines: seq<string>)
    ensures SEPARATOR !in Plain(lines)
    decreases |lines|
  {
    if lines != [] { PlainLines(lines[..|lines| - 1]); }
  }

  /** The request ends at the first separator. */
  lemma {:induction false} RequestEnds(lines: seq<string>)
    ensures Request(lines) <= lines && SEPARATOR !in Request(lines)
    ensures |Request(lines)| < |lines| ==> lines[|Request(lines)|] == SEPARATOR
    decreases |lines|
  {
    if lines != [] { RequestEnds(lines[..|lines| - 1]); }
  }

  lemma {:induction false} NoResponse(lines: seq<string>)
    requires SEPARATOR !in lines
    ensures Request(lines) == lines && Response(lines) == []
    decreases |lines|
  {
    if lines != [] {
      NoResponse(lines[..|lines| - 1]);
      assert lines == lines[..|lines| - 1] + [lines[|lines| - 1]];
    }
  }

  /** Request and response lines together are exactly the lines that are no separator,
      in order; without a separator there is no response. */
  lemma {:induction false} ServiceLines(lines: seq<string>)
    ensures Request(lines) + Response(lines) == Plain(lines)
    ensures SEPARATOR !in lines ==> Request(lines) == lines && Response(lines) == []
    decreases |lines|
  {
    if lines != [] {
      var init, last := lines[..|lines| - 1], lines[|lines| - 1];
      ServiceLines(init);
      assert lines == init + [last];
      if SEPARATOR !in lines { NoResponse(lines); }
    }
  }

  /** The two texts read back line by line. */
  lemma {:induction false} TerminatedLines(lines: seq<string>)
    requires forall k | 0 <= k < |lines| :: '\n' !in lines[k]
    ensures Split(Terminated(lines), "\n") == lines + [""]
  {
    TerminatedIsJoin(lines);
    SplitJoin(lines + [""], '\n');
  }

  lemma {:induction false} TerminatedIsJoin(lines: seq<string>)
    ensures Terminated(lines) == Join(lines + [""], "\n")
    decreases |lines|
  {
    if lines != [] {
      var last := |lines| - 1;
      TerminatedIsJoin(lines[..last]);
      JoinLast(lines[..last], lines[last]);
      assert lines[..last] + [lines[last], ""] == lines + [""];
    }
  }

  lemma {:induction false} JoinLast(lines: seq<string>, line: string)
    ensures Join(lines + [line, ""], "\n") == Join(lines + [""], "\n") + line + "\n"
    decreases |lines|
  {
    if lines == [] {
      assert [line, ""][1..] == [""];
      assert lines + [line, ""] == [line, ""] && lines + [""] == [""];
    } else {
      JoinLast(lines[1..], line);
      assert (lines + [line, ""])[1..] == lines[1..] + [line, ""];
      assert (lines + [""])[1..] == lines[1..] + [""];
    }
  }

  method SplitServiceDefinition(text: string) returns (r: Option<(string, string)>)
    ensures r == SplitService(text)
  {
    var normalized := Normalize(text);
    var lines := SplitString(normalized, "\n");
    if |lines| == 1 && lines[0] != SEPARATOR { return None; }
    var request, response := SortLines(lines);
    return Some((request, response));
  }

  method SortLines(lines: seq<string>) returns (request: string, response: string)
    ensures request == Terminated(Request(lines)) && response == Terminated(Response(lines))
  {
    request, response := "", "";
    var isRequest := true;
    for i := 0 to |lines|
      invariant Parts(isRequest, request, response) == Sorted(lines[..i])
    {
      assert lines[..i + 1][..i] == lines[..i];
      if lines[i] == SEPARATOR {
        isRequest := false;
      } else if isRequest {
        request := request + (lines[i] + "\n");
      } else {
        response := response + (lines[i] + "\n");
      }
    }
    assert lines[..|lines|] == lines;
    SortedParts(lines);
  }

  /** The loop's variables: whether no separator has come yet, and the two texts so far. */
  datatype Parts = Parts(open: bool, request: string, response: string)

  function SortLine(was: Parts, line: string): Parts {
    if line == SEPARATOR then was.(open := false)
    else if was.open then was.(request := was.request + (line + "\n"))
    else was.(response := was.response + (line + "\n"))
  }

  function Sorted(lines: seq<string>): Parts
    decreases |lines|
  {
    if lines == [] then Parts(true, "", "") else SortLine(Sorted(lines[..|lines| - 1]), lines[|lines| - 1])
  }

  function PartsOf(lines: seq<string>): Parts {
    Parts(Open(lines), Terminated(Request(lines)), Terminated(Response(lines)))
  }

  lemma {:induction false} SortedParts(lines: seq<string>)
    ensures Sorted(lines) == PartsOf(lines)
    decreases |lines|
  {
    if lines != [] {
      var last := |lines| - 1;
      SortedParts(lines[..last]);
      SortStep(lines[..last], lines[last]);
      assert lines[..last] + [lines[last]] == lines;
    }
  }

  lemma {:induction false} SortStep(init: seq<string>, line: string)
    requires Sorted(init) == PartsOf(init)
    ensures Sorted(init + [line]) == PartsOf(init + [line])
  {
    assert (init + [line])[..|init|] == init;
    LinesStep(init, line);
    TerminatedIf(Request(init), line, Open(init) && line != SEPARATOR);
    TerminatedIf(Response(init), line, !Open(init) && line != SEPARATOR);
  }

  lemma {:induction false} TerminatedIf(lines: seq<string>, line: string, more: bool)
    ensures Terminated(if more then lines + [line] else lines) ==
            if more then Terminated(lines) + (line + "\n") else Terminated(lines)
  {
    TerminatedStep(lines, line);
  }

  predicate Open(lines: seq<string>) { SEPARATOR !in lines }

  lemma {:induction false} TerminatedStep(lines: seq<string>, line: string)
    ensures Terminated(lines + [line]) == Terminated(lines) + (line + "\n")
  {
    assert (lines + [line])[..|lines|] == lines;
  }

  lemma {:induction false} LinesStep(init: seq<string>, line: string)
    ensures Open(init + [line]) <==> Open(init) && line != SEPARATOR
    ensures Request(init + [line]) == if Open(init) && line != SEPARATOR then Request(init) + [line] else Request(init)
    ensures Response(init + [line]) == if !Open(init) && line != SEPARATOR then Response(init) + [line] else Response(init)
  {
    assert (init + [line])[..|init|] == init;
    ServiceLines(init);
  }

  lemma {:induction false} LinesHaveNoBreak(text: string)
    ensures forall k | 0 <= k < |Split(text, "\n")| :: '\n' !in Split(text, "\n")[k]
  {
    var lines := Split(text, "\n");
    JoinSplit(text, "\n");
    forall k | 0 <= k < |lines| ensures '\n' !in lines[k] {
      assert !Occurs(lines[k], "\n");
      forall i | 0 <= i < |lines[k]| ensures lines[k][i] != '\n' {
        OccursOne(lines[k], '\n', i);
      }
    }
  }

  /** For every accepted service definition, whatever its line endings: reading the
      request and the response back line by line gives the lines of the definition
      that are no separator, in order, split at the first separator. */
  lemma {:induction false} ServiceDefinitionLines(text: string)
    requires SplitService(text).Some?
    ensures var (request, response) := SplitService(text).value;
            var lines := Split(Normal(text), "\n");
            && Split(request, "\n") == Request(lines) + [""]
            && Split(response, "\n") == Response(lines) + [""]
            && Request(lines) + Response(lines) == Plain(lines)
  {
    var lines := Split(Normal(text), "\n");
    LinesHaveNoBreak(Normal(text));
    ServiceLines(lines);
    var plain := Plain(lines);
    PlainFrom(lines);
    assert forall k | 0 <= k < |Request(lines)| :: Request(lines)[k] == plain[k];
    assert forall k | 0 <= k < |Response(lines)| :: Response(lines)[k] == plain[|Request(lines)| + k];
    TerminatedLines(Request(lines));
    TerminatedLines(Response(lines));
  }

  lemma {:induction false} PlainFrom(lines: seq<string>)
    requires forall k | 0 <= k < |lines| :: '\n' !in lines[k]
    ensures forall k | 0 <= k < |Plain(lines)| :: '\n' !in Plain(lines)[k]
    decreases |lines|
  {
    if lines != [] { PlainFrom(lines[..|lines| - 1]); }
  }

  /** `split_action_msg_definition`: goal, result and feedback, or an exception. */
  function SplitAction(text: string): (r: Option<(string, string, string)>)
    ensures r.Some? <==> |Split(text, "\n---\n")| == 3
  {
    var parts := Split(text, "\n---\n");
    if |parts| != 3 then None else Some((parts[0], parts[1], parts[2]))
  }

  /** Goal, result and feedback with the separators between them are the whole text. */
  lemma {:induction false} SplitActionWhole(text: string)
    requires SplitAction(text).Some?
    ensures var (goal, result, feedback) := SplitAction(text).value;
            text == goal + "\n---\n" + result + "\n---\n" + feedback
  {
    var d := "\n---\n";
    var parts := Split(text, d);
    JoinSplit(text, d);
    assert Join(parts[1..], d) == parts[1] + d + Join(parts[1..][1..], d);
    assert parts[1..][1..] == [parts[2]];
    assert parts[0] + d + (parts[1] + d + parts[2]) == parts[0] + d + parts[1] + d + parts[2];
  }
}
