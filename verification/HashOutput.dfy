/** Reading the serial and the hardware hash out of what the capture script printed. */
module HashOutput {
  import opened Text

  const SERIAL := "SERIAL="
  const HASH := "HASH="

  // ---------------------------------------------------------------- lines

  function BreakAt(s: string, i: nat): (k: nat)
    requires i <= |s|
    ensures i <= k <= |s|
    decreases |s| - i
  {
    if i == |s| || IsBreak(s[i]) then i else BreakAt(s, i + 1)
  }

  /** str.splitlines(): a carriage return and line feed together are one break. */
  function Lines(s: string): (lines: seq<string>)
    decreases |s|
  {
    if s == "" then []
    else
      var k := BreakAt(s, 0);
      if k == |s| then [s]
      else [s[..k]] + Lines(s[k + (if StartsWith(s[k..], "\r\n") then 2 else 1)..])
  }

  function Print(lines: seq<string>, eol: string): (s: string) {
    if lines == [] then "" else lines[0] + eol + Print(lines[1..], eol)
  }

  predicate OneLine(s: string) { forall i :: 0 <= i < |s| ==> !IsBreak(s[i]) }

  lemma {:induction false} NoBreakBefore(s: string, i: nat, k: nat)
    requires i <= k < |s| && IsBreak(s[k]) && forall j :: i <= j < k ==> !IsBreak(s[j])
    ensures BreakAt(s, i) == k
    decreases k - i
  {
    if i < k { NoBreakBefore(s, i + 1, k); }
  }

  predicate IsEol(eol: string) { eol == "\n" || eol == "\r\n" }

  lemma FirstLine(l: string, eol: string, rest: string)
    requires OneLine(l) && IsEol(eol)
    ensures Lines(l + eol + rest) == [l] + Lines(rest)
  {
    var s := l + eol + rest;
    assert s[|l|] == eol[0] && forall j :: 0 <= j < |l| ==> s[j] == l[j];
    NoBreakBefore(s, 0, |l|);
    assert s[..|l|] == l;
    AfterBreak(s[|l|..], eol, rest);
    assert s[|l|..][|eol|..] == s[|l| + |eol|..];
  }

  lemma AfterBreak(t: string, eol: string, rest: string)
    requires IsEol(eol) && t == eol + rest
    ensures StartsWith(t, "\r\n") <==> eol == "\r\n"
    ensures t[|eol|..] == rest
  {
    assert eol == "\n" ==> t[0] == '\n';
    assert eol == "\r\n" ==> t[..2] == "\r\n";
  }

  lemma {:induction false} LinesInvertPrint(lines: seq<string>, eol: string)
    requires IsEol(eol)
    requires forall i :: 0 <= i < |lines| ==> OneLine(lines[i])
    ensures Lines(Print(lines, eol)) == lines
  {
    if lines != [] {
      FirstLine(lines[0], eol, Print(lines[1..], eol));
      LinesInvertPrint(lines[1..], eol);
    }
  }

  // ---------------------------------------------------------------- the scan

  datatype Scan = Scan(serial: string, parts: seq<string>, inHash: bool)

  const EMPTY := Scan("", [], false)

  function Read(st: Scan, raw: string): (r: Scan) {
    var line := Strip(raw);
    if StartsWith(line, SERIAL) then st.(serial := Strip(line[|SERIAL|..]), inHash := false)
    else if StartsWith(line, HASH) then st.(parts := [Strip(line[|HASH|..])], inHash := true)
    else if st.inHash && line != "" then st.(parts := st.parts + [line])
    else st
  }

  function ReadAll(lines: seq<string>, n: nat): (st: Scan)
    requires n <= |lines|
  {
    if n == 0 then EMPTY else Read(ReadAll(lines, n - 1), lines[n - 1])
  }

  function Concat(parts: seq<string>): (s: string) {
    if parts == [] then "" else Concat(parts[..|parts| - 1]) + parts[|parts| - 1]
  }

  function Parse(out: string): (r: (string, string)) {
    var st := ReadAll(Lines(out), |Lines(out)|);
    (st.serial, Concat(st.parts))
  }

  method ParseHashOutput(out: string) returns (serial: string, hash: string)
    ensures (serial, hash) == Parse(out)
  {
    var lines := Lines(out);
    serial := "";
    var parts: seq<string> := [];
    var inHash := false;
    var i := 0;
    while i < |lines|
      invariant 0 <= i <= |lines|
      invariant Scan(serial, parts, inHash) == ReadAll(lines, i)
    {
      var line := Strip(lines[i]);
      if StartsWith(line, SERIAL) {
        serial, inHash := Strip(line[|SERIAL|..]), false;
      } else if StartsWith(line, HASH) {
        parts, inHash := [Strip(line[|HASH|..])], true;
      } else if inHash && line != "" {
        parts := parts + [line];
      }
      i := i + 1;
    }
    hash := Concat(parts);
  }

  // ---------------------------------------------------------------- the printed form

  predicate Solid(c: string) { c != "" && forall i :: 0 <= i < |c| ==> !IsSpace(c[i]) }

  predicate IsMarked(c: string) { StartsWith(c, "SERIAL=") || StartsWith(c, "HASH=") }

  /** The serial line, the hash line, and the lines the hash wrapped onto. */
  function Printed(serial: string, chunks: seq<string>): (lines: seq<string>)
    requires chunks != []
  {
    ["SERIAL=" + serial, "HASH=" + chunks[0]] + chunks[1..]
  }

  predicate NoneMarked(chunks: seq<string>, n: nat)
    requires n <= |chunks|
  {
    forall i :: 1 <= i < n ==> !IsMarked(chunks[i])
  }

  predicate AllSolid(chunks: seq<string>) { forall i :: 0 <= i < |chunks| ==> Solid(chunks[i]) }

  lemma SolidIsTrimmed(c: string)
    requires Solid(c)
    ensures Strip(c) == c && OneLine(c)
  {
    NothingToStrip(c);
  }

  lemma ReadSerial(st: Scan, serial: string)
    requires Trimmed(serial)
    ensures Read(st, SERIAL + serial) == Scan(serial, st.parts, false)
  {
    NothingToStrip(SERIAL + serial);
    NothingToStrip(serial);
    assert (SERIAL + serial)[|SERIAL|..] == serial;
  }

  lemma ReadHash(st: Scan, chunk: string)
    requires Solid(chunk)
    ensures Read(st, HASH + chunk) == Scan(st.serial, [chunk], true)
  {
    NothingToStrip(HASH + chunk);
    NothingToStrip(chunk);
    assert (HASH + chunk)[|HASH|..] == chunk;
    assert (HASH + chunk)[0] == 'H';
  }

  /** Other lines are skipped, and so are blank ones. */
  lemma ReadOther(st: Scan, raw: string)
    requires !IsMarked(Strip(raw)) && (!st.inHash || Strip(raw) == "")
    ensures Read(st, raw) == st
  {
  }

  /** A wrapped line extends the hash, unless it looks like a marker: then characters are lost for good. */
  lemma ReadChunk(st: Scan, chunk: string)
    requires Solid(chunk)
    ensures !IsMarked(chunk) && st.inHash ==> Read(st, chunk) == st.(parts := st.parts + [chunk])
    ensures |Concat(Read(st, chunk).parts)| <= |Concat(st.parts)| + |chunk|
    ensures IsMarked(chunk) ==> |Concat(Read(st, chunk).parts)| < |Concat(st.parts)| + |chunk|
  {
    SolidIsTrimmed(chunk);
    assert Concat(st.parts + [chunk]) == Concat(st.parts) + chunk by {
      assert (st.parts + [chunk])[..|st.parts|] == st.parts;
    }
    if StartsWith(chunk, HASH) && !StartsWith(chunk, SERIAL) {
      var tail := chunk[|HASH|..];
      NothingToStrip(tail);
      assert Concat([tail][..0]) == "";
      assert Concat([tail]) == tail;
    }
  }

  /** After `n` chunks: all of them, or already too few characters ever to be all. */
  predicate Gathered(st: Scan, serial: string, chunks: seq<string>, n: nat)
    requires n <= |chunks|
  {
    if NoneMarked(chunks, n) then st == Scan(serial, chunks[..n], true)
    else |Concat(st.parts)| < |Concat(chunks[..n])|
  }

  lemma GatherOne(st: Scan, serial: string, chunks: seq<string>, n: nat)
    requires 1 <= n < |chunks| && Solid(chunks[n]) && Gathered(st, serial, chunks, n)
    ensures Gathered(Read(st, chunks[n]), serial, chunks, n + 1)
  {
    ReadChunk(st, chunks[n]);
    assert chunks[..n + 1] == chunks[..n] + [chunks[n]] && chunks[..n + 1][..n] == chunks[..n];
    assert NoneMarked(chunks, n + 1) <==> NoneMarked(chunks, n) && !IsMarked(chunks[n]);
  }

  lemma FirstChunk(serial: string, chunks: seq<string>)
    requires Trimmed(serial) && chunks != [] && Solid(chunks[0])
    ensures Gathered(ReadAll(Printed(serial, chunks), 2), serial, chunks, 1)
  {
    var lines := Printed(serial, chunks);
    assert ReadAll(lines, 0) == EMPTY && ReadAll(lines, 1) == Read(EMPTY, lines[0]);
    ReadSerial(EMPTY, serial);
    ReadHash(ReadAll(lines, 1), chunks[0]);
    assert chunks[..1] == [chunks[0]];
  }

  lemma NextChunk(serial: string, chunks: seq<string>, n: nat)
    requires 1 <= n < |chunks| && Solid(chunks[n])
    requires Gathered(ReadAll(Printed(serial, chunks), n + 1), serial, chunks, n)
    ensures Gathered(ReadAll(Printed(serial, chunks), n + 2), serial, chunks, n + 1)
  {
    assert Printed(serial, chunks)[n + 1] == chunks[n];
    GatherOne(ReadAll(Printed(serial, chunks), n + 1), serial, chunks, n);
  }

  lemma {:induction false} ReadPrinted(serial: string, chunks: seq<string>, n: nat)
    requires Trimmed(serial) && 1 <= n <= |chunks| && AllSolid(chunks)
    ensures Gathered(ReadAll(Printed(serial, chunks), n + 1), serial, chunks, n)
  {
    if n == 1 {
      FirstChunk(serial, chunks);
    } else {
      ReadPrinted(serial, chunks, n - 1);
      NextChunk(serial, chunks, n - 1);
    }
  }

  /** However the hash was wrapped, parsing gives back the serial and the whole hash exactly when no wrapped
      line looks like a marker. */
  lemma ParseInvertsPrint(serial: string, chunks: seq<string>, eol: string)
    requires Trimmed(serial) && OneLine(serial) && IsEol(eol)
    requires chunks != [] && AllSolid(chunks)
    ensures Parse(Print(Printed(serial, chunks), eol)) == (serial, Concat(chunks)) <==> NoneMarked(chunks, |chunks|)
  {
    PrintedLines(serial, chunks);
    PrintedScan(serial, chunks);
    ParseOfPrint(Printed(serial, chunks), eol);
  }

  lemma ParseOfPrint(lines: seq<string>, eol: string)
    requires IsEol(eol) && forall i :: 0 <= i < |lines| ==> OneLine(lines[i])
    ensures var st := ReadAll(lines, |lines|); Parse(Print(lines, eol)) == (st.serial, Concat(st.parts))
  {
    LinesInvertPrint(lines, eol);
  }

  lemma PrintedScan(serial: string, chunks: seq<string>)
    requires Trimmed(serial) && chunks != [] && AllSolid(chunks)
    ensures var st := ReadAll(Printed(serial, chunks), |chunks| + 1);
      st.serial == serial && Concat(st.parts) == Concat(chunks) <==> NoneMarked(chunks, |chunks|)
  {
    ReadPrinted(serial, chunks, |chunks|);
    GatheredAll(ReadAll(Printed(serial, chunks), |chunks| + 1), serial, chunks);
  }

  lemma GatheredAll(st: Scan, serial: string, chunks: seq<string>)
    requires Gathered(st, serial, chunks, |chunks|)
    ensures st.serial == serial && Concat(st.parts) == Concat(chunks) <==> NoneMarked(chunks, |chunks|)
  {
    assert chunks[..|chunks|] == chunks;
  }

  lemma PrintedLines(serial: string, chunks: seq<string>)
    requires OneLine(serial) && chunks != [] && AllSolid(chunks)
    ensures forall i :: 0 <= i < |Printed(serial, chunks)| ==> OneLine(Printed(serial, chunks)[i])
  {
    forall i | 0 <= i < |Printed(serial, chunks)| ensures OneLine(Printed(serial, chunks)[i]) {
      if i > 0 { SolidIsTrimmed(chunks[i - 1]); }
    }
  }

  /** Padding at the end of the hash, wrapped onto a line of its own, can be such a line. */
  lemma WrappedPaddingCanBeLost(serial: string)
    requires Trimmed(serial) && OneLine(serial)
    ensures Parse(Print(Printed(serial, ["Zm9vZm9", "HASH="]), "\r\n")) != (serial, "Zm9vZm9HASH=")
  {
    var first, chunks := "Zm9vZm9", ["Zm9vZm9", "HASH="];
    assert Concat(chunks) == "Zm9vZm9HASH=" by {
      assert chunks[..1] == [first] && [first][..0] == [];
      assert Concat([first]) == first;
    }
    assert IsMarked(chunks[1]);
    ParseInvertsPrint(serial, chunks, "\r\n");
  }

  // ---------------------------------------------------------------- what is kept

  const MIN_HASH_LENGTH := 512

  datatype Verdict = Persist(serial: string, hash: string) | Reject

  function Judge(out: string): (v: Verdict) {
    var (serial, hash) := Parse(out);
    if serial == "" || hash == "" || |hash| < MIN_HASH_LENGTH then Reject else Persist(serial, hash)
  }

  /** Whatever was printed, only a serial with a hash of at least 512 characters is stored, both as they were read. */
  lemma JudgesAnyOutput(out: string)
    ensures Judge(out) != Reject <==> Parse(out).0 != "" && |Parse(out).1| >= 512
    ensures Judge(out) != Reject ==> Judge(out) == Persist(Parse(out).0, Parse(out).1)
  {
  }

  /** Of an unspoilt printout, exactly the full hash is stored, under its serial, when it is long enough. */
  lemma JudgesPrintedHash(serial: string, chunks: seq<string>, eol: string)
    requires Trimmed(serial) && OneLine(serial) && IsEol(eol)
    requires chunks != [] && AllSolid(chunks) && NoneMarked(chunks, |chunks|)
    ensures Judge(Print(Printed(serial, chunks), eol)) ==
      if serial != "" && |Concat(chunks)| >= 512 then Persist(serial, Concat(chunks)) else Reject
  {
    ParseInvertsPrint(serial, chunks, eol);
  }
}
