/** The OS service helpers of core.py with the `subprocess` calls taken out:
    the platform gate, the two `list_services` parsers, the
    `get_service_status` classification and the `restart_service` result. */
module Services {
  import opened Outcomes
  import opened Text
  import opened Json

  /** What one `subprocess` call did: it finished with exit status 0 and
      printed `output`, it failed with `CalledProcessError` (exit status not
      0) carrying `output`, or it raised some other exception (the program is
      missing, an argument is not a string, ...) whose text is `message`. */
  datatype Proc =
    | Completed(output: string)
    | ProcessFailed(output: string)
    | ProcRaised(message: string)

  predicate Supported(os: string)
  {
    os == "Linux" || os == "Windows"
  }

  /** `ensure_platform_supported`: the `NotImplementedError` text raised
      before the wrapped function runs, or `None` when the OS may proceed. */
  function Gate(os: string): (r: Option<string>)
    ensures r.None? <==> os in ["Linux", "Windows"]
    ensures r.Some? ==> r.value == os + " is not supported yet."
  {
    if Supported(os) then None else Some(os + " is not supported yet.")
  }

  /** One record of `list_services`: a systemd unit on Linux, or what the
      Windows parser collected for one `sc query` entry (either key may be
      missing from the dict). */
  datatype ServiceEntry =
    | Unit(name: string, load: string, active: string, sub: string)
    | WinService(serviceName: Option<string>, state: Option<string>)

  /** The record as the dict the agent sends. */
  function EntryJson(e: ServiceEntry): Json
  {
    match e
    case Unit(n, l, a, s) =>
      JObj([("name", JStr(n)), ("load", JStr(l)), ("active", JStr(a)), ("sub", JStr(s))])
    case WinService(n, st) =>
      JObj((if n.Some? then [("name", JStr(n.value))] else [])
           + (if st.Some? then [("state", JStr(st.value))] else []))
  }

  // ----- Linux: `systemctl list-units` -----

  /** The record one line of `systemctl` output contributes: one unit when
      `line.split(None, 4)` has at least four parts, nothing otherwise. */
  function UnitRow(line: string): seq<ServiceEntry>
  {
    var parts := SplitWs(line, 4);
    if |parts| >= 4 then [Unit(parts[0], parts[1], parts[2], parts[3])] else []
  }

  /** The units listed by `lines`, in order. */
  function Units(lines: seq<string>): seq<ServiceEntry>
  {
    if lines == [] then [] else Units(lines[..|lines| - 1]) + UnitRow(Last(lines))
  }

  /** Listing is line by line and keeps the input order: the records of two
      stretches of output are the records of the first, then those of the
      second. */
  lemma {:induction false} UnitsAppend(a: seq<string>, b: seq<string>)
    ensures Units(a + b) == Units(a) + Units(b)
    decreases |b|
  {
    if b == [] {
      assert a + b == a;
    } else {
      var b' := b[..|b| - 1];
      ConcatInit(a, b);
      UnitsAppend(a, b');
    }
  }

  /** Every unit comes from a line, with that line's first four fields, each
      non-empty and free of whitespace; lines with fewer fields give nothing. */
  lemma {:induction false} UnitsFromLines(lines: seq<string>, k: nat)
    requires k < |Units(lines)|
    ensures exists i :: 0 <= i < |lines| && |SplitWs(lines[i], 4)| >= 4 && Units(lines)[k] == UnitRow(lines[i])[0]
    ensures Units(lines)[k].Unit?
    ensures var u := Units(lines)[k];
              u.name != [] && NoSpace(u.name) && u.load != [] && NoSpace(u.load)
              && u.active != [] && NoSpace(u.active) && u.sub != [] && NoSpace(u.sub)
    decreases |lines|
  {
    var init := lines[..|lines| - 1];
    if k < |Units(init)| {
      UnitsFromLines(init, k);
      var i :| 0 <= i < |init| && |SplitWs(init[i], 4)| >= 4 && Units(init)[k] == UnitRow(init[i])[0];
      assert lines[i] == init[i];
    } else {
      SplitWsFields(Last(lines), 4);
      assert Units(lines)[k] == UnitRow(Last(lines))[0];
      assert lines[|lines| - 1] == Last(lines);
    }
  }

  /** A well-formed unit: four non-empty fields without whitespace. */
  predicate PlainUnit(e: ServiceEntry)
  {
    e.Unit? && e.name != [] && NoSpace(e.name) && e.load != [] && NoSpace(e.load)
    && e.active != [] && NoSpace(e.active) && e.sub != [] && NoSpace(e.sub)
  }

  /** How `systemctl list-units` spaces one unit's line: the whitespace
      before the UNIT column, the runs of padding between the four columns
      UNIT LOAD ACTIVE SUB, and what follows SUB (padding, the DESCRIPTION
      column, trailing padding). */
  datatype Spacing = Spacing(lead: string, gap1: string, gap2: string, gap3: string, tail: string)

  /** Column padding: the gaps are non-empty runs of whitespace, and what
      follows SUB starts with whitespace when there is anything. */
  predicate Padded(sp: Spacing)
  {
    AllSpace(sp.lead) && sp.gap1 != [] && AllSpace(sp.gap1) && sp.gap2 != [] && AllSpace(sp.gap2)
    && sp.gap3 != [] && AllSpace(sp.gap3) && (sp.tail == [] || IsSpace(sp.tail[0]))
  }

  /** None of the spacing breaks the line. */
  predicate OneLine(sp: Spacing)
  {
    NoBreak(sp.lead) && NoBreak(sp.gap1) && NoBreak(sp.gap2) && NoBreak(sp.gap3) && NoBreak(sp.tail)
  }

  /** The line printed for a unit with the given spacing. */
  function UnitLine(e: ServiceEntry, sp: Spacing): string
    requires e.Unit?
  {
    sp.lead + (e.name + (sp.gap1 + (e.load + (sp.gap2 + (e.active + (sp.gap3 + (e.sub + sp.tail)))))))
  }

  /** A unit line reads back as that one unit, however its columns are
      padded and whatever description follows. */
  lemma UnitLineParts(e: ServiceEntry, sp: Spacing)
    requires PlainUnit(e) && Padded(sp)
    ensures UnitRow(UnitLine(e, sp)) == [e]
  {
    var t := SplitWsFrom(sp.tail, 0, 0);
    Columns4(sp.lead, e.name, sp.gap1, e.load, sp.gap2, e.active, sp.gap3, e.sub, sp.tail);
    FourFields(UnitLine(e, sp), e.name, e.load, e.active, e.sub, t);
  }

  // The four columns of a unit line, split off one at a time.

  lemma Columns1(g3: string, c4: string, tail: string)
    requires AllSpace(g3) && c4 != [] && NoSpace(c4) && (tail == [] || IsSpace(tail[0]))
    ensures SplitWsFrom(g3 + (c4 + tail), 0, 1) == [c4] + SplitWsFrom(tail, 0, 0)
  {
    SplitWsWord(g3, c4, tail, 1);
  }

  lemma Columns2(g2: string, c3: string, g3: string, c4: string, tail: string)
    requires AllSpace(g2) && c3 != [] && NoSpace(c3)
    requires g3 != [] && AllSpace(g3) && c4 != [] && NoSpace(c4) && (tail == [] || IsSpace(tail[0]))
    ensures SplitWsFrom(g2 + (c3 + (g3 + (c4 + tail))), 0, 2) == [c3] + ([c4] + SplitWsFrom(tail, 0, 0))
  {
    assert (g3 + (c4 + tail))[0] == g3[0];
    SplitWsWord(g2, c3, g3 + (c4 + tail), 2);
    Columns1(g3, c4, tail);
  }

  lemma Columns3(g1: string, c2: string, g2: string, c3: string, g3: string, c4: string, tail: string)
    requires AllSpace(g1) && c2 != [] && NoSpace(c2) && g2 != [] && AllSpace(g2) && c3 != [] && NoSpace(c3)
    requires g3 != [] && AllSpace(g3) && c4 != [] && NoSpace(c4) && (tail == [] || IsSpace(tail[0]))
    ensures SplitWsFrom(g1 + (c2 + (g2 + (c3 + (g3 + (c4 + tail))))), 0, 3)
         == [c2] + ([c3] + ([c4] + SplitWsFrom(tail, 0, 0)))
  {
    assert (g2 + (c3 + (g3 + (c4 + tail))))[0] == g2[0];
    SplitWsWord(g1, c2, g2 + (c3 + (g3 + (c4 + tail))), 3);
    Columns2(g2, c3, g3, c4, tail);
  }

  lemma Columns4(g0: string, c1: string, g1: string, c2: string, g2: string, c3: string,
                 g3: string, c4: string, tail: string)
    requires AllSpace(g0) && c1 != [] && NoSpace(c1)
    requires g1 != [] && AllSpace(g1) && c2 != [] && NoSpace(c2) && g2 != [] && AllSpace(g2) && c3 != [] && NoSpace(c3)
    requires g3 != [] && AllSpace(g3) && c4 != [] && NoSpace(c4) && (tail == [] || IsSpace(tail[0]))
    ensures SplitWs(g0 + (c1 + (g1 + (c2 + (g2 + (c3 + (g3 + (c4 + tail))))))), 4)
         == [c1] + ([c2] + ([c3] + ([c4] + SplitWsFrom(tail, 0, 0))))
  {
    assert (g1 + (c2 + (g2 + (c3 + (g3 + (c4 + tail))))))[0] == g1[0];
    SplitWsWord(g0, c1, g1 + (c2 + (g2 + (c3 + (g3 + (c4 + tail))))), 4);
    Columns3(g1, c2, g2, c3, g3, c4, tail);
  }

  /** A line whose first four parts are the given fields is that unit. */
  lemma FourFields(line: string, name: string, load: string, active: string, sub: string, rest: seq<string>)
    requires SplitWs(line, 4) == [name] + ([load] + ([active] + ([sub] + rest)))
    ensures UnitRow(line) == [Unit(name, load, active, sub)]
  {
    var p := SplitWs(line, 4);
    assert |p| >= 4 && p[0] == name && p[1] == load && p[2] == active && p[3] == sub;
  }

  /** `systemctl` marks a failed unit with `●` in front of the line's
      leading padding. The parser then takes
      the marker as the unit's name, and every other field is one column to
      the left. */
  lemma FailedUnitMarker(e: ServiceEntry, sp: Spacing)
    requires PlainUnit(e) && Padded(sp) && sp.lead != []
    ensures UnitRow([FailedMark] + UnitLine(e, sp)) == [Unit([FailedMark], e.name, e.load, e.active)]
  {
    var marked := Unit([FailedMark], e.name, e.load, e.active);
    var sp' := Spacing([], sp.lead, sp.gap1, sp.gap2, sp.gap3 + (e.sub + sp.tail));
    assert UnitLine(marked, sp') == [FailedMark] + UnitLine(e, sp);
    UnitLineParts(marked, sp');
  }

  /** The `●` (U+25CF) `systemctl` prints in front of a failed unit. */
  const FailedMark: char := '\U{25CF}'

  lemma UnitLineShape(e: ServiceEntry, sp: Spacing)
    requires PlainUnit(e) && Padded(sp) && OneLine(sp)
    ensures var l := UnitLine(e, sp);
              NoBreak(l) && l != []
              && (sp.lead == [] ==> !IsSpace(l[0]))
              && (sp.tail == [] || !IsSpace(Last(sp.tail)) ==> !IsSpace(Last(l)))
  {
    NoSpaceNoBreak(e.name);
    NoSpaceNoBreak(e.load);
    NoSpaceNoBreak(e.active);
    NoSpaceNoBreak(e.sub);
    var r4 := e.sub + sp.tail;
    var r3 := sp.gap3 + r4;
    var r2 := e.active + r3;
    var r1 := sp.gap2 + r2;
    var r0 := e.load + r1;
    var q := sp.gap1 + r0;
    var n := e.name + q;
    NoBreakConcat(e.sub, sp.tail);
    NoBreakConcat(sp.gap3, r4);
    NoBreakConcat(e.active, r3);
    NoBreakConcat(sp.gap2, r2);
    NoBreakConcat(e.load, r1);
    NoBreakConcat(sp.gap1, r0);
    NoBreakConcat(e.name, q);
    NoBreakConcat(sp.lead, n);
    var l := UnitLine(e, sp);
    assert l == sp.lead + n;
    assert Last(l) == Last(r4);
  }

  /** The `systemctl` output for `units`, with their spacings. */
  function UnitTable(units: seq<ServiceEntry>, spacings: seq<Spacing>): string
    requires |units| == |spacings|
    requires forall i :: 0 <= i < |units| ==> units[i].Unit?
  {
    Join(seq(|units|, i requires 0 <= i < |units| => UnitLine(units[i], spacings[i])), "\n")
  }

  /** Round trip: the Linux parser reads back exactly the units that
      `systemctl` printed, one per line, in order, whatever the column
      padding and the whitespace around the table. */
  lemma ParseUnitTable(units: seq<ServiceEntry>, spacings: seq<Spacing>, before: string, after: string)
    requires |units| == |spacings|
    requires forall i :: 0 <= i < |units| ==> units[i].Unit?
    requires forall i :: 0 <= i < |units| ==> PlainUnit(units[i]) && Padded(spacings[i]) && OneLine(spacings[i])
    requires AllSpace(before) && AllSpace(after)
    ensures Units(SplitLines(Strip(before + UnitTable(units, spacings) + after))) == units
  {
    if units == [] {
      ParseTrimmedTable(units, spacings, before, after);
      return;
    }
    var n := |units|;
    // The first line's leading whitespace joins `before`, the last line's
    // trailing whitespace joins `after`.
    var sp0 := spacings[0];
    var spacings1 := spacings[0 := sp0.(lead := [])];
    TableLeadOff(units, spacings);
    var spl := spacings1[n - 1];
    var k := SkipSpaceBack(spl.tail, |spl.tail|);
    var w := spl.tail[k..];
    var spacings2 := spacings1[n - 1 := spl.(tail := spl.tail[..k])];
    TableTailOff(units, spacings1, k);
    TrimmedSpacings(units, spacings, spacings2, k);
    Regroup(before, sp0.lead, UnitTable(units, spacings2), w, after);
    ParseTrimmedTable(units, spacings2, before + sp0.lead, w + after);
  }

  /** The first line's leading whitespace leads the table. */
  lemma TableLeadOff(units: seq<ServiceEntry>, spacings: seq<Spacing>)
    requires |units| == |spacings| && units != []
    requires forall i :: 0 <= i < |units| ==> units[i].Unit?
    ensures UnitTable(units, spacings) == spacings[0].lead + UnitTable(units, spacings[0 := spacings[0].(lead := [])])
  {
    var n := |units|;
    var sp0 := spacings[0];
    var spacings1 := spacings[0 := sp0.(lead := [])];
    LeadOff(units[0], sp0);
    var lines := seq(n, i requires 0 <= i < n => UnitLine(units[i], spacings[i]));
    var lines1 := seq(n, i requires 0 <= i < n => UnitLine(units[i], spacings1[i]));
    assert lines1 == lines[0 := UnitLine(units[0], spacings1[0])];
    JoinFirst(lines, "\n", sp0.lead, UnitLine(units[0], spacings1[0]));
  }

  /** The whitespace that ends the last line's tail ends the table. */
  lemma TableTailOff(units: seq<ServiceEntry>, spacings: seq<Spacing>, k: nat)
    requires |units| == |spacings| && units != []
    requires forall i :: 0 <= i < |units| ==> units[i].Unit?
    requires k <= |Last(spacings).tail|
    ensures var spl := Last(spacings);
              UnitTable(units, spacings)
              == UnitTable(units, spacings[|units| - 1 := spl.(tail := spl.tail[..k])]) + spl.tail[k..]
  {
    var n := |units|;
    var spl := spacings[n - 1];
    var spacings2 := spacings[n - 1 := spl.(tail := spl.tail[..k])];
    TailOff(units[n - 1], spl, k);
    var lines := seq(n, i requires 0 <= i < n => UnitLine(units[i], spacings[i]));
    var lines2 := seq(n, i requires 0 <= i < n => UnitLine(units[i], spacings2[i]));
    assert lines2 == lines[n - 1 := UnitLine(units[n - 1], spacings2[n - 1])];
    JoinLast(lines, "\n", UnitLine(units[n - 1], spacings2[n - 1]), spl.tail[k..]);
  }

  /** Without the edge whitespace, every spacing still pads its line, the
      first line has no lead and the last tail ends in a non-space. */
  lemma TrimmedSpacings(units: seq<ServiceEntry>, spacings: seq<Spacing>, spacings2: seq<Spacing>, k: nat)
    requires |units| == |spacings| && units != []
    requires forall i :: 0 <= i < |units| ==> PlainUnit(units[i]) && Padded(spacings[i]) && OneLine(spacings[i])
    requires var spl := spacings[0 := spacings[0].(lead := [])][|units| - 1];
             k == SkipSpaceBack(spl.tail, |spl.tail|)
             && spacings2 == spacings[0 := spacings[0].(lead := [])][|units| - 1 := spl.(tail := spl.tail[..k])]
    ensures |spacings2| == |units|
    ensures forall i :: 0 <= i < |units| ==> PlainUnit(units[i]) && Padded(spacings2[i]) && OneLine(spacings2[i])
    ensures spacings2[0].lead == []
    ensures var t := Last(spacings2).tail; t == [] || !IsSpace(Last(t))
    ensures AllSpace(Last(spacings).tail[k..])
  {
    var n := |units|;
    var spl := spacings[0 := spacings[0].(lead := [])][n - 1];
    assert spl.tail == spacings[n - 1].tail;
    TrimTail(spl, k);
    forall i | 0 <= i < n
      ensures Padded(spacings2[i]) && OneLine(spacings2[i])
    {
      if i == n - 1 {
        assert spacings2[i] == spl.(tail := spl.tail[..k]);
      }
    }
  }

  lemma TrimTail(sp: Spacing, k: nat)
    requires Padded(sp) && OneLine(sp) && k == SkipSpaceBack(sp.tail, |sp.tail|)
    ensures var sp' := sp.(tail := sp.tail[..k]);
              Padded(sp') && OneLine(sp') && (sp'.tail == [] || !IsSpace(Last(sp'.tail)))
              && AllSpace(sp.tail[k..])
  {
    SkipSpaceBackSpan(sp.tail, |sp.tail|);
  }

  lemma Regroup(b: string, l: string, m: string, w: string, a: string)
    ensures b + (l + (m + w)) + a == (b + l) + m + (w + a)
  {
  }

  /** A line's leading whitespace is a prefix of the line. */
  lemma LeadOff(e: ServiceEntry, sp: Spacing)
    requires e.Unit?
    ensures UnitLine(e, sp) == sp.lead + UnitLine(e, sp.(lead := []))
  {
  }

  /** Whitespace that ends a line's tail is a suffix of the line. */
  lemma TailOff(e: ServiceEntry, sp: Spacing, k: nat)
    requires e.Unit? && k <= |sp.tail|
    ensures UnitLine(e, sp) == UnitLine(e, sp.(tail := sp.tail[..k])) + sp.tail[k..]
  {
    var tl := sp.tail;
    assert tl == tl[..k] + tl[k..];
    var x := e.name + (sp.gap1 + (e.load + (sp.gap2 + (e.active + (sp.gap3 + e.sub)))));
    assert UnitLine(e, sp) == sp.lead + (x + tl);
    assert UnitLine(e, sp.(tail := tl[..k])) == sp.lead + (x + tl[..k]);
  }

  /** The table with no whitespace of its own at its two edges. */
  lemma ParseTrimmedTable(units: seq<ServiceEntry>, spacings: seq<Spacing>, before: string, after: string)
    requires |units| == |spacings|
    requires forall i :: 0 <= i < |units| ==> units[i].Unit?
    requires forall i :: 0 <= i < |units| ==> PlainUnit(units[i]) && Padded(spacings[i]) && OneLine(spacings[i])
    requires AllSpace(before) && AllSpace(after)
    requires units != [] ==> spacings[0].lead == []
    requires units != [] ==> var t := Last(spacings).tail; t == [] || !IsSpace(Last(t))
    ensures Units(SplitLines(Strip(before + UnitTable(units, spacings) + after))) == units
  {
    var lines := seq(|units|, i requires 0 <= i < |units| => UnitLine(units[i], spacings[i]));
    forall i | 0 <= i < |units|
      ensures UnitRow(lines[i]) == [units[i]] && NoBreak(lines[i]) && lines[i] != []
    {
      UnitLineParts(units[i], spacings[i]);
      UnitLineShape(units[i], spacings[i]);
    }
    if units != [] {
      UnitLineShape(units[0], spacings[0]);
      UnitLineShape(Last(units), Last(spacings));
      assert Last(lines) == UnitLine(Last(units), Last(spacings));
    }
    var s := Join(lines, "\n");
    JoinEnds(lines, "\n");
    StripSurrounded(before, s, after);
    SplitLinesJoin(lines);
    UnitsOfRows(lines, units);
  }

  lemma UnitsOfRows(lines: seq<string>, units: seq<ServiceEntry>)
    requires |lines| == |units|
    requires forall i :: 0 <= i < |lines| ==> UnitRow(lines[i]) == [units[i]]
    ensures Units(lines) == units
  {
    UnitsOfRowsPrefix(lines, units, |lines|);
    assert lines[..|lines|] == lines && units[..|units|] == units;
  }

  lemma {:induction false} UnitsOfRowsPrefix(lines: seq<string>, units: seq<ServiceEntry>, k: nat)
    requires |lines| == |units| && k <= |lines|
    requires forall i :: 0 <= i < |lines| ==> UnitRow(lines[i]) == [units[i]]
    ensures Units(lines[..k]) == units[..k]
  {
    if k > 0 {
      UnitsOfRowsPrefix(lines, units, k - 1);
      TakeInit(lines, k);
      TakeSnoc(units, k - 1);
    }
  }

  // ----- Windows: `sc query` -----

  const NamePrefix := "SERVICE_NAME:"

  predicate IsNameLine(raw: string)
  {
    StartsWith(Strip(raw), NamePrefix)
  }

  predicate IsStateLine(raw: string)
  {
    !IsNameLine(raw) && Contains(Strip(raw), "STATE")
  }

  /** `line.split(":", 1)[1].strip()` of a `SERVICE_NAME:` line. */
  function ServiceName(line: string): (r: string)
    requires StartsWith(line, NamePrefix)
    ensures r == Strip(Sub(line, |NamePrefix|, |line|))
  {
    assert line[12] == ':' by {
      assert Sub(line, 0, 13)[12] == line[12];
    }
    assert MatchAt(line, ":", 12) by {
      assert Sub(line, 12, 13)[0] == line[12];
    }
    forall j: nat | j < 12
      ensures !MatchAt(line, ":", j)
    {
      assert Sub(line, 0, 13)[j] == line[j];
      assert Sub(line, j, j + 1)[0] == line[j];
    }
    var parts := SplitOnce(line, ":");
    assert Find(line, ":") == Some(12);
    Strip(parts[1])
  }

  /** `line.split(":")[-1].strip().split("  ")[-1]`: the last double-space
      separated piece of the text after the last colon. */
  function StateOf(line: string): string
  {
    Last(Split(Strip(Last(Split(line, ":"))), "  "))
  }

  /** The state comes from what follows the last colon of the line: for a
      colon-free `rest`, the text before the colon plays no part. */
  lemma StateAfterColon(pre: string, rest: string)
    requires !Contains(rest, ":")
    ensures StateOf(pre + ":" + rest) == Last(Split(Strip(rest), "  "))
  {
    SplitAfterLast(pre, ":", rest);
  }

  /** The state is an end of the stripped text after the last colon. It
      holds no double space, and it is that whole text or follows a double
      space in it. */
  lemma StateOfShape(line: string)
    ensures !Contains(Last(Split(line, ":")), ":")
    ensures var v := Strip(Last(Split(line, ":")));
            var st := StateOf(line);
              && !Contains(st, "  ")
              && |st| <= |v| && st == Sub(v, |v| - |st|, |v|)
              && (|st| == |v| <==> !Contains(v, "  "))
              && (|st| < |v| ==> |v| - |st| >= 2 && MatchAt(v, "  ", |v| - |st| - 2))
  {
    LastNoSep(line, ":");
    var v := Strip(Last(Split(line, ":")));
    assert StateOf(line) == Last(Split(v, "  "));
    StateShape(v);
  }

  lemma StateShape(v: string)
    ensures var st := Last(Split(v, "  "));
              && !Contains(st, "  ")
              && |st| <= |v| && st == Sub(v, |v| - |st|, |v|)
              && (|st| == |v| <==> !Contains(v, "  "))
              && (|st| < |v| ==> |v| - |st| >= 2 && MatchAt(v, "  ", |v| - |st| - 2))
  {
    LastNoSep(v, "  ");
    SplitLast(v, "  ");
  }

  /** The dict the Windows parser is filling; `WinService(None, None)` is the
      empty dict, which is never appended. */
  const NoService := WinService(None, None)

  function Flush(done: seq<ServiceEntry>, current: ServiceEntry): seq<ServiceEntry>
  {
    if current == NoService then done else done + [current]
  }

  datatype ScState = ScState(done: seq<ServiceEntry>, current: ServiceEntry)

  /** The effect of one line of `sc query` output. */
  function ScStep(st: ScState, raw: string): ScState
    requires st.current.WinService?
  {
    var line := Strip(raw);
    if StartsWith(line, NamePrefix) then
      ScState(Flush(st.done, st.current), WinService(Some(ServiceName(line)), None))
    else if Contains(line, "STATE") then
      ScState(st.done, st.current.(state := Some(StateOf(line))))
    else st
  }

  function ScFold(lines: seq<string>): (st: ScState)
    ensures st.current.WinService?
  {
    if lines == [] then ScState([], NoService) else ScStep(ScFold(lines[..|lines| - 1]), Last(lines))
  }

  /** The records the Windows parser collects from `lines`. */
  function ScRecords(lines: seq<string>): seq<ServiceEntry>
  {
    var st := ScFold(lines);
    Flush(st.done, st.current)
  }

  /** The state named by the last `STATE` line of `lines`, if any. */
  function LastState(lines: seq<string>): Option<string>
  {
    if lines == [] then None
    else if IsStateLine(Last(lines)) then Some(StateOf(Strip(Last(lines))))
    else LastState(lines[..|lines| - 1])
  }

  function WithState(e: ServiceEntry, st: Option<string>): ServiceEntry
    requires e.WinService?
  {
    if st.Some? then e.(state := st) else e
  }

  predicate NoNameLines(lines: seq<string>)
  {
    forall i :: 0 <= i < |lines| ==> !IsNameLine(lines[i])
  }

  /** Lines that hold no `SERVICE_NAME:` line only ever set the current
      record's state, to that of their last `STATE` line. */
  lemma {:induction false} ScBody(pre: seq<string>, body: seq<string>)
    requires NoNameLines(body)
    ensures ScFold(pre + body) == ScState(ScFold(pre).done, WithState(ScFold(pre).current, LastState(body)))
    decreases |body|
  {
    if body == [] {
      assert pre + body == pre;
    } else {
      var b' := body[..|body| - 1];
      ConcatInit(pre, body);
      assert NoNameLines(b');
      assert !IsNameLine(Last(body));
      ScBody(pre, b');
    }
  }

  /** A block of `sc query` output: a `SERVICE_NAME:` line followed by the
      lines that describe that service. */
  predicate IsBlock(block: seq<string>)
  {
    block != [] && IsNameLine(block[0]) && NoNameLines(block[1..])
  }

  /** The record one block yields: its name and the state of its last
      `STATE` line, if it has one. */
  function BlockRecord(block: seq<string>): ServiceEntry
    requires IsBlock(block)
  {
    WinService(Some(ServiceName(Strip(block[0]))), LastState(block[1..]))
  }

  function Concat(blocks: seq<seq<string>>): seq<string>
  {
    if blocks == [] then [] else Concat(blocks[..|blocks| - 1]) + Last(blocks)
  }

  predicate AllBlocks(blocks: seq<seq<string>>)
  {
    forall i :: 0 <= i < |blocks| ==> IsBlock(blocks[i])
  }

  function BlockRecords(blocks: seq<seq<string>>): (r: seq<ServiceEntry>)
    requires AllBlocks(blocks)
    ensures |r| == |blocks|
  {
    if blocks == [] then [] else BlockRecords(blocks[..|blocks| - 1]) + [BlockRecord(Last(blocks))]
  }

  /** What precedes the first `SERVICE_NAME:` line yields a record without a
      name when it holds a `STATE` line, and nothing otherwise. */
  function PreludeRecords(prelude: seq<string>): seq<ServiceEntry>
  {
    var st := LastState(prelude);
    if st.Some? then [WinService(None, st)] else []
  }

  lemma ScFoldSnoc(lines: seq<string>, l: string)
    ensures ScFold(lines + [l]) == ScStep(ScFold(lines), l)
  {
    assert (lines + [l])[..|lines|] == lines;
  }

  /** A block flushes the record in progress and leaves its own record as
      the one in progress. */
  lemma ScBlockStep(pre: seq<string>, b: seq<string>)
    requires IsBlock(b)
    ensures ScFold(pre + b) == ScState(Flush(ScFold(pre).done, ScFold(pre).current), BlockRecord(b))
  {
    var h := pre + [b[0]];
    SplitFirst(pre, b);
    ScFoldSnoc(pre, b[0]);
    var named := WinService(Some(ServiceName(Strip(b[0]))), None);
    assert ScFold(h) == ScState(Flush(ScFold(pre).done, ScFold(pre).current), named);
    ScBody(h, b[1..]);
  }

  lemma {:induction false} ScFoldBlocks(prelude: seq<string>, blocks: seq<seq<string>>)
    requires NoNameLines(prelude) && AllBlocks(blocks) && blocks != []
    ensures ScFold(prelude + Concat(blocks)) ==
              ScState(PreludeRecords(prelude) + BlockRecords(blocks[..|blocks| - 1]), BlockRecord(Last(blocks)))
    decreases |blocks|, 0
  {
    var init := blocks[..|blocks| - 1];
    var before := prelude + Concat(init);
    assert prelude + Concat(blocks) == before + Last(blocks);
    ScBlockStep(before, Last(blocks));
    assert AllBlocks(init);
    ScRecordsBlocks(prelude, init);
  }

  /** Flushing the last block's record appends it to the records of the
      blocks before it. */
  lemma FlushBlocks(pre: seq<ServiceEntry>, init: seq<seq<string>>)
    requires AllBlocks(init) && init != []
    ensures Flush(pre + BlockRecords(init[..|init| - 1]), BlockRecord(Last(init))) == pre + BlockRecords(init)
  {
    var front, last := BlockRecords(init[..|init| - 1]), BlockRecord(Last(init));
    BlockRecordsSnoc(init);
    FlushNamed(pre + front, last);
    ConcatAssoc(pre, front, [last]);
  }

  lemma BlockRecordsSnoc(blocks: seq<seq<string>>)
    requires AllBlocks(blocks) && blocks != []
    ensures BlockRecords(blocks) == BlockRecords(blocks[..|blocks| - 1]) + [BlockRecord(Last(blocks))]
    ensures BlockRecord(Last(blocks)) != NoService
  {
  }

  /** A record with a name is always kept. */
  lemma FlushNamed(done: seq<ServiceEntry>, current: ServiceEntry)
    requires current != NoService
    ensures Flush(done, current) == done + [current]
  {
  }

  /** Moving the first element of `b` to the end of `pre`. */
  lemma SplitFirst<T>(pre: seq<T>, b: seq<T>)
    requires b != []
    ensures pre + b == (pre + [b[0]]) + b[1..]
  {
    assert b == [b[0]] + b[1..];
  }

  /** The Windows parser on well-formed `sc query` output: one record per
      block, in order, named after its `SERVICE_NAME:` line and carrying the
      state of the block's last `STATE` line; before them, a nameless record
      when the text before the first block holds a `STATE` line. */
  lemma {:induction false} ScRecordsBlocks(prelude: seq<string>, blocks: seq<seq<string>>)
    requires NoNameLines(prelude) && AllBlocks(blocks)
    ensures ScRecords(prelude + Concat(blocks)) == PreludeRecords(prelude) + BlockRecords(blocks)
    decreases |blocks|, 1
  {
    if blocks == [] {
      assert prelude + Concat(blocks) == prelude;
      ScPrelude(prelude);
    } else {
      ScFoldBlocks(prelude, blocks);
      FlushBlocks(PreludeRecords(prelude), blocks);
    }
  }

  lemma ScPrelude(prelude: seq<string>)
    requires NoNameLines(prelude)
    ensures ScFold(prelude) == ScState([], WithState(NoService, LastState(prelude)))
    ensures ScRecords(prelude) == PreludeRecords(prelude)
  {
    assert [] + prelude == prelude;
    ScBody([], prelude);
  }

  // ----- list_services -----

  /** What `list_services()` returns or raises, given the OS and the outcome
      of its `systemctl` / `sc` call. A failing call is reported by Python's
      `CalledProcessError` handler and yields an empty list. */
  function Listing(os: string, run: Proc): (r: Call<seq<ServiceEntry>>)
    ensures r.Raises? <==> !Supported(os) || run.ProcRaised?
    ensures !Supported(os) ==> r == Raises(os + " is not supported yet.")
    ensures Supported(os) && run.ProcRaised? ==> r == Raises(run.message)
    ensures Supported(os) && run.ProcessFailed? ==> r == Returns([])
  {
    match Gate(os)
    case Some(e) => Raises(e)
    case None =>
      match run
      case ProcRaised(m) => Raises(m)
      case ProcessFailed(_) => Returns([])
      case Completed(out) =>
        var lines := SplitLines(Strip(out));
        Returns(if os == "Linux" then Units(lines) else ScRecords(lines))
  }

  /** The Linux loop of `list_services`. */
  method ParseUnits(lines: seq<string>) returns (services: seq<ServiceEntry>)
    ensures services == Units(lines)
  {
    services := [];
    for i := 0 to |lines|
      invariant services == Units(lines[..i])
    {
      var parts := SplitWs(lines[i], 4);
      if |parts| >= 4 {
        services := services + [Unit(parts[0], parts[1], parts[2], parts[3])];
      }
      TakeInit(lines, i + 1);
    }
    assert lines[..|lines|] == lines;
  }

  /** The Windows loop of `list_services`, with its mutable `current_service`. */
  method ParseScQuery(lines: seq<string>) returns (services: seq<ServiceEntry>)
    ensures services == ScRecords(lines)
  {
    services := [];
    var current := NoService;
    for i := 0 to |lines|
      invariant ScState(services, current) == ScFold(lines[..i])
    {
      TakeSnoc(lines, i);
      ScFoldSnoc(lines[..i], lines[i]);
      services, current := ScLine(services, current, lines[i]);
    }
    if current != NoService {
      services := services + [current];
    }
    assert lines[..|lines|] == lines;
  }

  /** The body of the Windows loop: one line of `sc query` output updates
      the records collected so far and the one in progress. */
  method ScLine(services: seq<ServiceEntry>, current: ServiceEntry, raw: string)
    returns (services': seq<ServiceEntry>, current': ServiceEntry)
    requires current.WinService?
    ensures ScState(services', current') == ScStep(ScState(services, current), raw)
  {
    services', current' := services, current;
    var line := Strip(raw);
    if StartsWith(line, NamePrefix) {
      if current != NoService {
        services' := services + [current];
      }
      current' := WinService(Some(ServiceName(line)), None);
    } else if Contains(line, "STATE") {
      current' := current.(state := Some(StateOf(line)));
    }
  }

  /** `list_services`: the platform gate, the subprocess outcome, then the
      parser for the OS. */
  method ListServices(os: string, run: Proc) returns (r: Call<seq<ServiceEntry>>)
    ensures r == Listing(os, run)
  {
    var gate := Gate(os);
    if gate.Some? {
      return Raises(gate.value);
    }
    match run {
      case ProcRaised(m) =>
        r := Raises(m);
      case ProcessFailed(_) =>
        r := Returns([]);
      case Completed(out) =>
        var lines := SplitLines(Strip(out));
        var services;
        if os == "Linux" {
          services := ParseUnits(lines);
        } else {
          services := ParseScQuery(lines);
        }
        r := Returns(services);
    }
  }

  // ----- get_service_status -----

  /** A record of `get_watched_services_status`: what `get_service_status`
      returned, or the fallback built when it raised. */
  datatype StatusRecord =
    | Probed(name: Json, statusMessage: string, isRunning: bool)
    | Unavailable(name: Json, error: string)

  /** The record as the dict the agent sends; a probed record keeps the
      unused keys `running` and `status`, set to `None`. */
  function StatusJson(r: StatusRecord): Json
  {
    match r
    case Probed(n, m, b) =>
      JObj([("name", n), ("running", JNull), ("status", JNull),
            ("status_message", JStr(m)), ("is_running", JBool(b))])
    case Unavailable(n, e) =>
      JObj([("name", n), ("is_running", JBool(false)), ("status_message", JStr(e))])
  }

  /** The text whose presence in the status output means "running". */
  function RunningMarker(os: string): string
  {
    if os == "Linux" then "Active: active (running)" else "RUNNING"
  }

  /** `get_service_status(name)`, given the outcome of its status call. */
  function ServiceStatus(os: string, name: Json, run: Proc): (r: Call<StatusRecord>)
    ensures r.Raises? <==> !Supported(os) || run.ProcRaised?
    ensures !Supported(os) ==> r == Raises(os + " is not supported yet.")
    ensures Supported(os) && run.ProcRaised? ==> r == Raises(run.message)
    ensures r.Returns? ==> r.value.Probed? && r.value.name == name && r.value.statusMessage == run.output
    ensures r.Returns? ==>
              (r.value.isRunning <==> run.Completed? && exists j: nat :: MatchAt(run.output, RunningMarker(os), j))
  {
    match Gate(os)
    case Some(e) => Raises(e)
    case None =>
      match run
      case Completed(out) =>
        ContainsAt(out, RunningMarker(os));
        Returns(Probed(name, out, Contains(out, RunningMarker(os))))
      case ProcessFailed(out) => Returns(Probed(name, out, false))
      case ProcRaised(m) => Raises(m)
  }

  // ----- restart_service -----

  /** The dict `restart_service` returns. */
  datatype RestartRecord = RestartRecord(name: Json, success: bool, message: string)

  const Restarted := "Service restarted successfully."

  /** The result of the last restart step, given its subprocess outcome. */
  function RestartStep(name: Json, p: Proc): Call<RestartRecord>
  {
    match p
    case Completed(_) => Returns(RestartRecord(name, true, Restarted))
    case ProcessFailed(o) => Returns(RestartRecord(name, false, "Failed to restart service: " + o))
    case ProcRaised(m) => Raises(m)
  }

  /** `restart_service(name)`: on Linux one `systemctl restart` call
      (`first`); on Windows `sc stop` (`first`) and then, only when that
      succeeded, `sc start` (`second`). */
  function RestartService(os: string, name: Json, first: Proc, second: Proc): (r: Call<RestartRecord>)
    ensures !Supported(os) ==> r == Raises(os + " is not supported yet.")
    ensures r.Returns? ==> r.value.name == name
    ensures r.Returns? ==>
              (r.value.success <==> first.Completed? && (os == "Linux" || second.Completed?))
    ensures r.Returns? && r.value.success ==> r.value.message == Restarted
    ensures Supported(os) && first.ProcessFailed? ==>
              r == Returns(RestartRecord(name, false, "Failed to restart service: " + first.output))
    ensures os == "Windows" && first.Completed? && second.ProcessFailed? ==>
              r == Returns(RestartRecord(name, false, "Failed to restart service: " + second.output))
    ensures Supported(os) ==>
              (r.Raises? <==> first.ProcRaised? || (os == "Windows" && first.Completed? && second.ProcRaised?))
    ensures Supported(os) && first.ProcRaised? ==> r == Raises(first.message)
    ensures os == "Windows" && first.Completed? && second.ProcRaised? ==> r == Raises(second.message)
  {
    match Gate(os)
    case Some(e) => Raises(e)
    case None =>
      if os == "Linux" then RestartStep(name, first)
      else
        match first
        case Completed(_) => RestartStep(name, second)
        case ProcessFailed(o) => Returns(RestartRecord(name, false, "Failed to restart service: " + o))
        case ProcRaised(m) => Raises(m)
  }

  /** The gate runs before anything else: on an unsupported OS the
      subprocess outcomes play no part in any of the three helpers. */
  lemma GateFirst(os: string, name: Json, p: Proc, q: Proc, p': Proc, q': Proc)
    requires !Supported(os)
    ensures Listing(os, p) == Listing(os, p') == Raises(os + " is not supported yet.")
    ensures ServiceStatus(os, name, p) == ServiceStatus(os, name, p')
    ensures RestartService(os, name, p, q) == RestartService(os, name, p', q')
  {
  }

  /** On Windows a failed `sc stop` ends the restart: `sc start` is not run. */
  lemma StopFailureSkipsStart(name: Json, out: string, q: Proc, q': Proc)
    ensures RestartService("Windows", name, ProcessFailed(out), q)
         == RestartService("Windows", name, ProcessFailed(out), q')
         == Returns(RestartRecord(name, false, "Failed to restart service: " + out))
  {
  }
}
