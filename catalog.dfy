/** The camera catalog of server.js: parsing the catalog file into cameras
    (`loadCameras`), the `/api/cameras` response, and the agreement between
    the URL a camera is served under and the file its worker writes. */
module Catalog {
  import opened Wrappers
  import opened Text

  /** A loaded camera: its numeric id, display name and source address. */
  datatype Camera = Camera(id: nat, name: string, url: string)

  /** One element of the `/api/cameras` response. */
  datatype CameraInfo = CameraInfo(id: nat, name: string, streamUrl: string)

  // ---------------------------------------------------------------------------
  // Parsing the catalog file

  /** `line.trim() === ''`, which by the contract of `Trim` holds exactly
      when every character of the line is a space. */
  predicate IsBlank(line: string)
  {
    AllSpace(line)
  }

  /** The first element of `line.split(';')`: the `name` of the destructuring. */
  function NameField(line: string): string
  {
    Split(line, ';')[0]
  }

  /** The second element of `line.split(';')`, or `undefined` when the line has
      no `;`: the `url` of the destructuring. */
  function UrlField(line: string): Option<string>
  {
    var parts := Split(line, ';');
    if |parts| >= 2 then Some(parts[1]) else None
  }

  /** `if (name && url)`: both untrimmed fields are present and non-empty.
      `AcceptsIff` states it in terms of the line's first two `;`. */
  predicate Accepts(line: string)
  {
    NameField(line) != [] && UrlField(line).Some? && UrlField(line).value != []
  }

  /** No space at either end. */
  predicate Trimmed(s: string)
  {
    s == [] || (!IsSpace(s[0]) && !IsSpace(s[|s| - 1]))
  }

  /** A field as `loadCameras` stores it: no `;` and no space at either end. */
  predicate CleanField(field: string)
  {
    Trimmed(field) && ';' !in field
  }

  /** The camera a kept line at position `id - 1` of the non-blank lines
      yields: its trimmed name and address (see `EntryClean`). */
  function EntryOf(line: string, id: nat): Camera
    requires Accepts(line)
  {
    Camera(id, Trim(NameField(line)), Trim(UrlField(line).value))
  }

  /** A kept line yields a camera with the given id whose name and address
      contain no `;` and have no space at either end. */
  lemma EntryClean(line: string, id: nat)
    requires Accepts(line)
    ensures var c := EntryOf(line, id); c.id == id && CleanField(c.name) && CleanField(c.url)
  {
    var parts := Split(line, ';');
    TrimKeeps(parts[0]);
    TrimKeeps(parts[1]);
  }

  /** `lines.filter(line => line.trim() !== '')` */
  function NonBlank(lines: seq<string>): (r: seq<string>)
    ensures |r| <= |lines|
    ensures forall i :: 0 <= i < |r| ==> !IsBlank(r[i])
  {
    if lines == [] then []
    else (if IsBlank(lines[0]) then [] else [lines[0]]) + NonBlank(lines[1..])
  }

  /** The cameras pushed by the `forEach` over the non-blank lines: the line at
      index `k` yields id `k + 1` when it is accepted, and nothing otherwise. */
  function Numbered(lines: seq<string>): (r: seq<Camera>)
    ensures |r| <= |lines|
  {
    if lines == [] then []
    else
      var k := |lines| - 1;
      Numbered(lines[..k]) + (if Accepts(lines[k]) then [EntryOf(lines[k], k + 1)] else [])
  }

  /** The line at index `k` is numbered after all the lines before it. */
  lemma NumberedSnoc(lines: seq<string>, k: nat)
    requires k < |lines|
    ensures Numbered(lines[..k + 1]) ==
            Numbered(lines[..k]) + (if Accepts(lines[k]) then [EntryOf(lines[k], k + 1)] else [])
  {
    assert lines[..k + 1][..k] == lines[..k];
  }

  /** The cameras `loadCameras` loads from the text of the catalog file. */
  function Parse(text: string): seq<Camera>
  {
    Numbered(NonBlank(Split(text, '\n')))
  }

  /** Each camera parsed from the file text comes from the accepted non-blank
      line at index `id - 1`, and ids strictly increase. */
  lemma ParseSound(text: string)
    ensures IdsIncreasing(Parse(text))
    ensures forall i :: 0 <= i < |Parse(text)| ==> LineYields(NonBlank(Split(text, '\n')), Parse(text)[i])
  {
    NumberedSound(NonBlank(Split(text, '\n')));
  }

  function Ids(cams: seq<Camera>): set<nat>
  {
    set i | 0 <= i < |cams| :: cams[i].id
  }

  /** `c` is the camera the accepted line at index `c.id - 1` yields. */
  predicate LineYields(lines: seq<string>, c: Camera)
  {
    1 <= c.id <= |lines| && Accepts(lines[c.id - 1]) && c == EntryOf(lines[c.id - 1], c.id)
  }

  predicate IdsIncreasing(cams: seq<Camera>)
  {
    forall i, j :: 0 <= i < j < |cams| ==> cams[i].id < cams[j].id
  }

  // ---------------------------------------------------------------------------
  // Properties of the filter

  /** A line survives the filter exactly when it occurs and is not blank. */
  lemma {:induction false} NonBlankMembers(lines: seq<string>, x: string)
    ensures x in NonBlank(lines) <==> x in lines && !IsBlank(x)
  {
    if lines != [] {
      NonBlankMembers(lines[1..], x);
      assert lines == [lines[0]] + lines[1..];
    }
  }

  /** The filter works line by line, so it keeps the file order. */
  lemma {:induction false} NonBlankAppend(a: seq<string>, b: seq<string>)
    ensures NonBlank(a + b) == NonBlank(a) + NonBlank(b)
  {
    if a != [] {
      NonBlankAppend(a[1..], b);
      var head := if IsBlank(a[0]) then [] else [a[0]];
      assert (a + b)[0] == a[0] && (a + b)[1..] == a[1..] + b;
      assert NonBlank(a + b) == head + NonBlank(a[1..] + b);
      assert NonBlank(a) == head + NonBlank(a[1..]);
    } else {
      assert a + b == b;
    }
  }

  /** A blank line is dropped before numbering, so it shifts no id. */
  lemma BlankLineShiftsNoId(before: seq<string>, blank: string, after: seq<string>)
    requires IsBlank(blank)
    ensures Numbered(NonBlank(before + [blank] + after)) == Numbered(NonBlank(before + after))
  {
    NonBlankAppend(before + [blank], after);
    NonBlankAppend(before, [blank]);
    NonBlankAppend(before, after);
    assert NonBlank([blank]) == [];
    assert NonBlank(before + [blank]) == NonBlank(before);
  }

  // ---------------------------------------------------------------------------
  // Properties of the numbering

  /** Every loaded camera comes from the accepted line at index `id - 1`,
      with its fields trimmed, and ids strictly increase in file order. */
  lemma NumberedSound(lines: seq<string>)
    ensures IdsIncreasing(Numbered(lines))
    ensures forall i :: 0 <= i < |Numbered(lines)| ==> LineYields(lines, Numbered(lines)[i])
  {
    NumberedYields(lines);
    NumberedIncreasing(lines);
  }

  /** Each loaded camera is the one its line yields. */
  lemma {:induction false} NumberedYields(lines: seq<string>)
    ensures forall i :: 0 <= i < |Numbered(lines)| ==> LineYields(lines, Numbered(lines)[i])
  {
    if lines != [] {
      var k := |lines| - 1;
      var init := lines[..k];
      NumberedYields(init);
      NumberedSnoc(lines, k);
      assert lines[..k + 1] == lines;
      var p := Numbered(init);
      forall i | 0 <= i < |Numbered(lines)| ensures LineYields(lines, Numbered(lines)[i]) {
        if i < |p| {
          LineYieldsPrefix(init, lines, p[i]);
        }
      }
    }
  }

  /** Ids strictly increase along the loaded cameras. */
  lemma {:induction false} NumberedIncreasing(lines: seq<string>)
    ensures IdsIncreasing(Numbered(lines))
  {
    if lines != [] {
      var k := |lines| - 1;
      var init := lines[..k];
      NumberedIncreasing(init);
      NumberedYields(init);
      NumberedLastId(lines);
      var p := Numbered(init);
      NumberedSnoc(lines, k);
      assert lines[..k + 1] == lines;
      var r := Numbered(lines);
      forall i, j | 0 <= i < j < |r| ensures r[i].id < r[j].id {
        assert r[i] == p[i] && LineYields(init, p[i]);
        if j < |p| {
          assert r[j] == p[j];
        }
      }
    }
  }

  /** The cameras the last line adds carry its number. */
  lemma NumberedLastId(lines: seq<string>)
    requires lines != []
    ensures forall j :: |Numbered(lines[..|lines| - 1])| <= j < |Numbered(lines)| ==>
              Numbered(lines)[j].id == |lines|
  {
    var k := |lines| - 1;
    NumberedSnoc(lines, k);
    assert lines[..k + 1] == lines;
  }

  /** A camera yielded by a prefix of the lines is yielded by the lines. */
  lemma LineYieldsPrefix(init: seq<string>, lines: seq<string>, c: Camera)
    requires |init| <= |lines| && init == lines[..|init|]
    requires LineYields(init, c)
    ensures LineYields(lines, c)
  {
    assert lines[c.id - 1] == init[c.id - 1];
  }

  /** The ids `k + 1` of the accepted lines `k`. */
  function AcceptedIds(lines: seq<string>): set<nat>
  {
    set k | 0 <= k < |lines| && Accepts(lines[k]) :: k + 1
  }

  /** The ids are exactly `k + 1` for the accepted lines `k`: a skipped
      malformed line leaves a gap in the numbering. */
  lemma {:induction false} NumberedIds(lines: seq<string>)
    ensures Ids(Numbered(lines)) == AcceptedIds(lines)
  {
    if lines != [] {
      var k := |lines| - 1;
      var init := lines[..k];
      NumberedIds(init);
      NumberedSnoc(lines, k);
      assert lines[..k + 1] == lines;
      if Accepts(lines[k]) {
        var c := EntryOf(lines[k], k + 1);
        IdsAppend(Numbered(init), [c]);
        IdsSingle(c);
      } else {
        assert Numbered(lines) == Numbered(init);
      }
      AcceptedSnoc(lines);
    }
  }

  lemma IdsSingle(c: Camera)
    ensures Ids([c]) == {c.id}
  {
    assert [c][0] == c;
  }

  lemma IdsAppend(a: seq<Camera>, b: seq<Camera>)
    ensures Ids(a + b) == Ids(a) + Ids(b)
  {
    forall id | id in Ids(a + b) ensures id in Ids(a) + Ids(b) {
      var i :| 0 <= i < |a + b| && (a + b)[i].id == id;
      if i >= |a| {
        assert b[i - |a|].id == id;
      }
    }
    forall id | id in Ids(a) ensures id in Ids(a + b) {
      var i :| 0 <= i < |a| && a[i].id == id;
      assert (a + b)[i].id == id;
    }
    forall id | id in Ids(b) ensures id in Ids(a + b) {
      var i :| 0 <= i < |b| && b[i].id == id;
      assert (a + b)[|a| + i].id == id;
    }
  }

  lemma AcceptedSnoc(lines: seq<string>)
    requires lines != []
    ensures var k := |lines| - 1;
            AcceptedIds(lines) == AcceptedIds(lines[..k]) + (if Accepts(lines[k]) then {k + 1} else {})
  {
    var k := |lines| - 1;
    var init := lines[..k];
    forall id | id in AcceptedIds(lines) ensures id in AcceptedIds(init) || (Accepts(lines[k]) && id == k + 1) {
      var j :| 0 <= j < |lines| && Accepts(lines[j]) && id == j + 1;
      if j < k {
        assert init[j] == lines[j];
      }
    }
    forall id | id in AcceptedIds(init) ensures id in AcceptedIds(lines) {
      var j :| 0 <= j < |init| && Accepts(init[j]) && id == j + 1;
      assert lines[j] == init[j];
    }
  }

  /** A line is kept exactly when the text before its first `;` is non-empty
      and the text between its first and second `;` (or the end of the line)
      is non-empty. */
  lemma AcceptsIff(line: string)
    ensures var k := IndexOf(line, ';');
            Accepts(line) <==>
              0 < k < |line| && IndexOf(line[k + 1..], ';') > 0
    ensures var k := IndexOf(line, ';');
            NameField(line) == line[..k] &&
            (k < |line| ==> UrlField(line) == Some(line[k + 1..][..IndexOf(line[k + 1..], ';')]))
  {
    var k := IndexOf(line, ';');
    FieldsAt(line);
    assert |NameField(line)| == k;
    if k < |line| {
      assert |UrlField(line).value| == IndexOf(line[k + 1..], ';');
    }
  }

  /** The name field ends at the first `;`, and the address field, present
      exactly when there is a `;`, ends at the next one. */
  lemma FieldsAt(line: string)
    ensures NameField(line) == line[..IndexOf(line, ';')]
    ensures var k := IndexOf(line, ';');
            k < |line| ==> UrlField(line) == Some(line[k + 1..][..IndexOf(line[k + 1..], ';')])
    ensures IndexOf(line, ';') == |line| ==> UrlField(line) == None
  {
    var k := IndexOf(line, ';');
    SplitHead(line, ';');
    if k < |line| {
      var tail := line[k + 1..];
      SplitHead(tail, ';');
      var parts := Split(line, ';');
      assert |parts| >= 2 && parts[1..] == Split(tail, ';');
      assert parts[1] == Split(tail, ';')[0] == tail[..IndexOf(tail, ';')];
      assert UrlField(line) == Some(parts[1]);
    } else {
      assert |Split(line, ';')| < 2;
    }
  }

  /** Fields after the second are ignored. */
  lemma ExtraFieldsIgnored(name: string, url: string, extra: string, id: nat)
    requires ';' !in name && ';' !in url
    ensures Accepts(name + ";" + url + ";" + extra) == Accepts(name + ";" + url)
    ensures Accepts(name + ";" + url) ==>
              EntryOf(name + ";" + url + ";" + extra, id) == EntryOf(name + ";" + url, id)
  {
    SplitAfterPiece(name, url + ";" + extra, ';');
    assert name + ";" + url + ";" + extra == name + [';'] + (url + ";" + extra);
    SplitAfterPiece(url, extra, ';');
    assert url + ";" + extra == url + [';'] + extra;
    SplitAfterPiece(name, url, ';');
    assert name + ";" + url == name + [';'] + url;
    SplitNoSeparator(url, ';');
  }

  /** The emptiness test is made on the untrimmed fields: a line holding only
      a space, `;` and a space is kept, with an empty name and address. */
  lemma SpaceFieldsAccepted()
    ensures !IsBlank(" ; ") && Accepts(" ; ") && EntryOf(" ; ", 1) == Camera(1, "", "")
  {
    SplitAfterPiece(" ", " ", ';');
    assert " ; " == " " + [';'] + " ";
    SplitNoSeparator(" ", ';');
    assert AllSpace(" ");
  }

  // ---------------------------------------------------------------------------
  // The camera list response and the output files

  /** `/hls/cam${id}/index.m3u8`: the id can be read back from the URL. */
  function StreamUrl(id: nat): (r: string)
    ensures |r| > 19 && AllDigits(r[8..|r| - 11]) && DecimalValue(r[8..|r| - 11]) == id
  {
    IdSegment(Decimal(id));
    DecimalRoundTrip(id);
    "/hls/cam" + Decimal(id) + "/index.m3u8"
  }

  lemma IdSegment(d: string)
    ensures var u := "/hls/cam" + d + "/index.m3u8"; |u| == |d| + 19 && u[8..|u| - 11] == d
  {
  }

  /** The directory a camera's worker writes to, as path segments below the
      server's directory: `public/hls/cam${id}`. */
  function OutputDir(id: nat): seq<string>
  {
    ["public", "hls", "cam" + Decimal(id)]
  }

  /** The playlist a camera's worker writes: `<OutputDir>/index.m3u8`. */
  function OutputPath(id: nat): seq<string>
  {
    OutputDir(id) + ["index.m3u8"]
  }

  /** No segment holds a `/`. */
  predicate SlashFree(segments: seq<string>)
  {
    forall i :: 0 <= i < |segments| ==> '/' !in segments[i]
  }

  /** No segment is empty or starts with `.`: nothing for the static
      handler to collapse, to treat as a dotfile or to climb out through. */
  predicate PlainSegments(segments: seq<string>)
  {
    forall i :: 0 <= i < |segments| ==> segments[i] != [] && segments[i][0] != '.'
  }

  /** The file the static handler of `public` serves for a URL path: a path
      below `public` whose segments hold no `/`. */
  function ServedFile(urlPath: string): (r: Option<seq<string>>)
    ensures r.Some? <==> |urlPath| > 0 && urlPath[0] == '/'
    ensures r.Some? ==> |r.value| >= 2 && r.value[0] == "public"
    ensures r.Some? ==> SlashFree(r.value[1..])
  {
    if |urlPath| > 0 && urlPath[0] == '/' then Some(["public"] + Split(urlPath[1..], '/'))
    else None
  }

  /** The `/api/cameras` response: one entry per loaded camera, in order. */
  function ApiCameras(cams: seq<Camera>): (r: seq<CameraInfo>)
    ensures |r| == |cams|
    ensures forall i :: 0 <= i < |r| ==>
              r[i].id == cams[i].id && r[i].name == cams[i].name && r[i].streamUrl == StreamUrl(cams[i].id)
  {
    if cams == [] then []
    else [CameraInfo(cams[0].id, cams[0].name, StreamUrl(cams[0].id))] + ApiCameras(cams[1..])
  }

  /** Each advertised URL is served from exactly the playlist the camera's
      worker writes. */
  lemma {:induction false} ApiUrlIsOutput(cams: seq<Camera>, i: nat)
    requires i < |cams|
    ensures ServedFile(ApiCameras(cams)[i].streamUrl) == Some(OutputPath(cams[i].id))
  {
    if i > 0 {
      ApiUrlIsOutput(cams[1..], i - 1);
    } else {
      UrlIsOutput(cams[0].id);
    }
  }

  /** The URL of id `n` names the file `public/hls/cam<n>/index.m3u8`. */
  lemma UrlIsOutput(id: nat)
    ensures ServedFile(StreamUrl(id)) == Some(OutputPath(id))
  {
    var parts := OutputPath(id)[1..];
    UrlJoinsOutput(id);
    ServedJoin(parts);
    assert ["public"] + parts == OutputPath(id);
  }

  /** The URL of id `n` is `/` followed by the output path below `public`,
      joined with `/`; no segment of that path holds a `/`, is empty or
      starts with `.`. */
  lemma UrlJoinsOutput(id: nat)
    ensures |OutputPath(id)| == 4 && SlashFree(OutputPath(id)[1..]) && PlainSegments(OutputPath(id)[1..])
    ensures StreamUrl(id) == "/" + Join(OutputPath(id)[1..], '/')
  {
    var d := Decimal(id);
    OutputSegments(id);
    JoinThree("hls", "cam" + d, "index.m3u8", '/');
    UrlPieces(d);
  }

  /** The output path below `public` is `hls`, `cam<n>` and `index.m3u8`,
      none of which holds a `/`, is empty or starts with `.`. */
  lemma OutputSegments(id: nat)
    ensures OutputPath(id)[1..] == ["hls", "cam" + Decimal(id), "index.m3u8"]
    ensures |OutputPath(id)| == 4 && SlashFree(OutputPath(id)[1..]) && PlainSegments(OutputPath(id)[1..])
  {
    var d := Decimal(id);
    assert '/' !in "cam" + d by {
      assert forall j :: 0 <= j < |d| ==> '0' <= d[j] <= '9';
    }
  }

  lemma UrlPieces(d: string)
    ensures "/hls/cam" + d + "/index.m3u8" == "/" + ("hls" + ['/'] + ("cam" + d) + ['/'] + "index.m3u8")
  {
    assert "/hls/cam" == "/" + "hls" + "/" + "cam";
    assert "/index.m3u8" == "/" + "index.m3u8";
  }

  lemma JoinThree(a: string, b: string, c: string, sep: char)
    ensures Join([a, b, c], sep) == a + [sep] + b + [sep] + c
  {
    assert [a, b, c][1..] == [b, c];
    assert [b, c][1..] == [c];
    assert Join([b, c], sep) == b + [sep] + c;
    assert Join([a, b, c], sep) == a + [sep] + (b + [sep] + c);
  }

  /** A URL path made of `/`-free segments is served from those segments
      below `public`. */
  lemma ServedJoin(segments: seq<string>)
    requires |segments| >= 1 && SlashFree(segments)
    ensures ServedFile("/" + Join(segments, '/')) == Some(["public"] + segments)
  {
    SplitJoin(segments, '/');
    assert ("/" + Join(segments, '/'))[1..] == Join(segments, '/');
  }

  /** Cameras with different ids get different URLs and different output
      files, so no two workers write the same playlist. */
  lemma DistinctIdsDistinctTargets(m: nat, n: nat)
    requires m != n
    ensures StreamUrl(m) != StreamUrl(n)
    ensures OutputPath(m) != OutputPath(n)
  {
    if OutputPath(m) == OutputPath(n) {
      assert OutputPath(m)[2] == OutputPath(n)[2];
      assert ("cam" + Decimal(m))[3..] == Decimal(m);
      assert ("cam" + Decimal(n))[3..] == Decimal(n);
      DecimalInjective(m, n);
    }
    if StreamUrl(m) == StreamUrl(n) {
      UrlIsOutput(m);
      UrlIsOutput(n);
    }
  }
}
