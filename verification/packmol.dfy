/**
 * The Packmol manifest: the output file name and, for every structure block,
 * the structure file and the instance count its "number" line gives. The
 * manifest is read line by line through one iterator; a structure block reads
 * its own lines from that same iterator up to its "end" line.
 */
module Packmol {
  import opened Outcomes
  import opened Text

  /** What the manifest yields: the output name, if any, and (structure file, count) per number line. */
  type Entry = (string, int)

  /** The directory of the manifest as a path prefix: empty, or the directory and a slash. */
  function DirPrefix(dirname: string): (p: string)
    ensures dirname == [] ==> p == []
    ensures dirname != [] ==> |p| == |dirname| + 1 && p[..|dirname|] == dirname && p[|dirname|] == '/'
  {
    if dirname == "" then "" else dirname + "/"
  }

  /** parse_packmol_input over the lines of a manifest in directory `dirname`. */
  function ParsePackmol(lines: seq<string>, dirname: string): (r: Result<(Option<string>, seq<Entry>)>)
    ensures r.Success? ==> forall k :: 0 <= k < |r.value.1| ==> DirPrefix(dirname) <= r.value.1[k].0
    ensures r.Success? && r.value.0.Some? ==> DirPrefix(dirname) <= r.value.0.value
  {
    Manifest(lines, DirPrefix(dirname), None, [])
  }

  /**
   * The outer loop over the remaining lines: blank lines and unknown keywords
   * are skipped, "output" names the output file (the last one wins) and
   * "structure" opens a block; both keywords need a second column.
   */
  function Manifest(rest: seq<string>, prefix: string, output: Option<string>, data: seq<Entry>)
    : (r: Result<(Option<string>, seq<Entry>)>)
    ensures r.Success? ==> |data| <= |r.value.1| && r.value.1[..|data|] == data
    ensures r.Success? ==> forall k :: |data| <= k < |r.value.1| ==> prefix <= r.value.1[k].0
    ensures r.Success? && r.value.0.Some? ==> r.value.0 == output || prefix <= r.value.0.value
    decreases |rest|, 1
  {
    if |rest| == 0 then Success((output, data))
    else
      var t := Split(rest[0]);
      if |t| == 0 then Manifest(rest[1..], prefix, output, data)
      else if t[0] == "output" then
        if |t| < 2 then Failure(MissingField)
        else Manifest(rest[1..], prefix, Some(prefix + t[1]), data)
      else if t[0] == "structure" then
        if |t| < 2 then Failure(MissingField)
        else Block(rest[1..], prefix, prefix + t[1], output, data)
      else Manifest(rest[1..], prefix, output, data)
  }

  /**
   * Inside a structure block: every line up to the one whose first column is
   * "end" is read; a "number" line appends the block's file with its count.
   * A blank line has no first column (IndexError) and the end of the file
   * inside a block is StopIteration.
   */
  function Block(rest: seq<string>, prefix: string, xyz: string, output: Option<string>, data: seq<Entry>)
    : (r: Result<(Option<string>, seq<Entry>)>)
    requires prefix <= xyz
    ensures r.Success? ==> |data| <= |r.value.1| && r.value.1[..|data|] == data
    ensures r.Success? ==> forall k :: |data| <= k < |r.value.1| ==> prefix <= r.value.1[k].0
    ensures r.Success? && r.value.0.Some? ==> r.value.0 == output || prefix <= r.value.0.value
    decreases |rest|, 0
  {
    if |rest| == 0 then Failure(UnexpectedEnd)
    else
      var t := Split(rest[0]);
      if |t| == 0 then Failure(MissingField)
      else if t[0] == "end" then Manifest(rest[1..], prefix, output, data)
      else if t[0] == "number" then
        if |t| < 2 then Failure(MissingField)
        else
          match ParseInt(t[1])
          case None => Failure(NotANumber)
          case Some(count) => Block(rest[1..], prefix, xyz, output, data + [(xyz, count)])
      else Block(rest[1..], prefix, xyz, output, data)
  }

  /** A structure block as a manifest states it: the file, its count, and the closing line. */
  function StructureLines(name: string, count: int): seq<string> {
    [Join(["structure", name]), Join(["number", IntToString(count)]), Join(["end", "structure"])]
  }

  /** The blocks of a manifest, one per entry, in order. */
  function Structures(entries: seq<Entry>): seq<string> {
    if |entries| == 0 then [] else StructureLines(entries[0].0, entries[0].1) + Structures(entries[1..])
  }

  /** A manifest naming `out` and holding one block per entry. */
  function ManifestLines(out: string, entries: seq<Entry>): seq<string> {
    [Join(["output", out])] + Structures(entries)
  }

  /** The entries with their file names placed in the manifest's directory. */
  function Placed(prefix: string, entries: seq<Entry>): (r: seq<Entry>)
    ensures |r| == |entries|
    ensures forall k :: 0 <= k < |entries| ==> r[k] == (prefix + entries[k].0, entries[k].1)
  {
    if |entries| == 0 then [] else [(prefix + entries[0].0, entries[0].1)] + Placed(prefix, entries[1..])
  }

  /** An "output" line with a name sets the output name and nothing else. */
  lemma OutputStep(rest: seq<string>, name: string, prefix: string, output: Option<string>, data: seq<Entry>)
    requires |rest| > 0 && Split(rest[0]) == ["output", name]
    ensures Manifest(rest, prefix, output, data) == Manifest(rest[1..], prefix, Some(prefix + name), data)
  {
  }

  /** A "structure" line opens a block for the named file. */
  lemma StructureStep(rest: seq<string>, name: string, prefix: string, output: Option<string>, data: seq<Entry>)
    requires |rest| > 0 && Split(rest[0]) == ["structure", name]
    ensures Manifest(rest, prefix, output, data) == Block(rest[1..], prefix, prefix + name, output, data)
  {
  }

  /** A "number" line with a count appends the block's file with that count. */
  lemma NumberStep(rest: seq<string>, w: string, count: int, prefix: string, xyz: string, output: Option<string>, data: seq<Entry>)
    requires prefix <= xyz
    requires |rest| > 0 && Split(rest[0]) == ["number", w] && ParseInt(w) == Some(count)
    ensures Block(rest, prefix, xyz, output, data) == Block(rest[1..], prefix, xyz, output, data + [(xyz, count)])
  {
  }

  /** An "end" line closes the block and returns to the outer loop. */
  lemma EndStep(rest: seq<string>, prefix: string, xyz: string, output: Option<string>, data: seq<Entry>)
    requires prefix <= xyz
    requires |rest| > 0 && |Split(rest[0])| > 0 && Split(rest[0])[0] == "end"
    ensures Block(rest, prefix, xyz, output, data) == Manifest(rest[1..], prefix, output, data)
  {
  }

  /** The three lines of a written block split into the keywords and values that were joined. */
  lemma StructureLinesSplit(name: string, count: int)
    requires Token(name)
    ensures var ls := StructureLines(name, count);
      && Split(ls[0]) == ["structure", name]
      && Split(ls[1]) == ["number", IntToString(count)]
      && Split(ls[2]) == ["end", "structure"]
      && ParseInt(IntToString(count)) == Some(count)
  {
    assert Token("structure") && Token("number") && Token("end");
    IntToStringIsToken(count);
    SplitJoin(["structure", name]);
    SplitJoin(["number", IntToString(count)]);
    SplitJoin(["end", "structure"]);
    ParseIntRoundTrip(count);
  }

  /** A block of a structure line, a number line and an end line adds one entry and moves on. */
  lemma BlockReads(lines: seq<string>, name: string, w: string, count: int, prefix: string, output: Option<string>, data: seq<Entry>)
    requires |lines| >= 3
    requires Split(lines[0]) == ["structure", name]
    requires Split(lines[1]) == ["number", w] && ParseInt(w) == Some(count)
    requires Split(lines[2]) == ["end", "structure"]
    ensures Manifest(lines, prefix, output, data) == Manifest(lines[3..], prefix, output, data + [(prefix + name, count)])
  {
    var xyz := prefix + name;
    StructureStep(lines, name, prefix, output, data);
    assert lines[1..][0] == lines[1] && lines[1..][1..] == lines[2..];
    NumberStep(lines[1..], w, count, prefix, xyz, output, data);
    assert lines[2..][0] == lines[2] && lines[2..][1..] == lines[3..];
    EndStep(lines[2..], prefix, xyz, output, data + [(xyz, count)]);
  }

  /** One block read from a manifest's remaining lines adds its entry and moves on. */
  lemma BlockRoundTrip(name: string, count: int, more: seq<string>, prefix: string, output: Option<string>, data: seq<Entry>)
    requires Token(name)
    ensures Manifest(StructureLines(name, count) + more, prefix, output, data)
      == Manifest(more, prefix, output, data + [(prefix + name, count)])
  {
    var lines := StructureLines(name, count) + more;
    StructureLinesSplit(name, count);
    assert lines[0] == StructureLines(name, count)[0];
    assert lines[1] == StructureLines(name, count)[1];
    assert lines[2] == StructureLines(name, count)[2];
    BlockReads(lines, name, IntToString(count), count, prefix, output, data);
    assert lines[3..] == more;
  }

  /** A manifest written from entries of single-token file names reads back as those entries. */
  lemma {:induction false} StructuresRoundTrip(entries: seq<Entry>, prefix: string, output: Option<string>, data: seq<Entry>)
    requires forall k :: 0 <= k < |entries| ==> Token(entries[k].0)
    ensures Manifest(Structures(entries), prefix, output, data) == Success((output, data + Placed(prefix, entries)))
    decreases |entries|
  {
    if |entries| == 0 {
      assert data + Placed(prefix, entries) == data;
    } else {
      var e := entries[0];
      assert Structures(entries) == StructureLines(e.0, e.1) + Structures(entries[1..]);
      BlockRoundTrip(e.0, e.1, Structures(entries[1..]), prefix, output, data);
      StructuresRoundTrip(entries[1..], prefix, output, data + [(prefix + e.0, e.1)]);
      PlacedFirst(prefix, entries, data);
    }
  }

  /** Placing the first entry and then the rest places them all. */
  lemma PlacedFirst(prefix: string, entries: seq<Entry>, data: seq<Entry>)
    requires |entries| > 0
    ensures data + [(prefix + entries[0].0, entries[0].1)] + Placed(prefix, entries[1..]) == data + Placed(prefix, entries)
  {
    assert Placed(prefix, entries) == [(prefix + entries[0].0, entries[0].1)] + Placed(prefix, entries[1..]);
  }

  /** parse_packmol_input reads back the output name and the entries a manifest was written from. */
  lemma PackmolRoundTrip(out: string, entries: seq<Entry>, dirname: string)
    requires Token(out)
    requires forall k :: 0 <= k < |entries| ==> Token(entries[k].0)
    ensures ParsePackmol(ManifestLines(out, entries), dirname)
      == Success((Some(DirPrefix(dirname) + out), Placed(DirPrefix(dirname), entries)))
  {
    var lines := ManifestLines(out, entries);
    var prefix := DirPrefix(dirname);
    OutputLineSplit(out);
    assert lines[0] == Join(["output", out]);
    OutputStep(lines, out, prefix, None, []);
    assert lines[1..] == Structures(entries);
    StructuresRoundTrip(entries, prefix, Some(prefix + out), []);
    assert [] + Placed(prefix, entries) == Placed(prefix, entries);
  }

  lemma OutputLineSplit(out: string)
    requires Token(out)
    ensures Split(Join(["output", out])) == ["output", out]
  {
    assert Token("output");
    SplitJoin(["output", out]);
  }

  /** A structure block cut off by the end of the manifest raises StopIteration. */
  lemma UnterminatedBlock(name: string, count: int, prefix: string)
    requires Token(name)
    ensures Manifest(StructureLines(name, count)[..2], prefix, None, []) == Failure(UnexpectedEnd)
  {
    var lines := StructureLines(name, count)[..2];
    assert Token("structure") && Token("number");
    IntToStringIsToken(count);
    SplitJoin(["structure", name]);
    SplitJoin(["number", IntToString(count)]);
    ParseIntRoundTrip(count);
    StructureStep(lines, name, prefix, None, []);
    NumberStep(lines[1..], IntToString(count), count, prefix, prefix + name, None, []);
    assert lines[1..][1..] == [];
  }

  /** A blank line inside a structure block has no first column: IndexError. */
  lemma BlankLineInBlock(name: string, prefix: string, more: seq<string>)
    requires Token(name)
    ensures Manifest([Join(["structure", name]), ""] + more, prefix, None, []) == Failure(MissingField)
  {
    assert Token("structure");
    SplitJoin(["structure", name]);
    var lines := [Join(["structure", name]), ""] + more;
    assert lines[1..] == [""] + more;
    assert Split("") == [];
  }
}
