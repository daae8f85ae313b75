/**
 Resolving a manifest into file paths. The manifest's first line names a
 directory and every later line is a file-id prefix; each id resolves to the
 first directory entry, in listing order, that starts with it. Reading the
 directory and joining paths are functions supplied by the caller.
 */
module ListFiles {
  import opened Text

  /** Trims every line, keeping their number and order. */
  function TrimAll(lines: seq<string>): (trimmed: seq<string>)
    ensures |trimmed| == |lines|
    ensures forall i :: 0 <= i < |lines| ==> trimmed[i] == Trim(lines[i]) && IsTrimmed(trimmed[i])
  {
    if |lines| == 0 then [] else [Trim(lines[0])] + TrimAll(lines[1..])
  }

  /** The manifest's lines: the text split at line feeds, each line trimmed, so
      carriage returns before the line feeds are dropped. There is always at least one. */
  function ManifestLines(manifest: string): (lines: seq<string>)
    ensures |lines| >= 1
  {
    TrimAll(Split(manifest, '\n'))
  }

  /** `k` is the first entry, in listing order, that starts with `id`. */
  predicate IsFirstMatch(entries: seq<string>, id: string, k: int) {
    && 0 <= k < |entries|
    && StartsWith(entries[k], id)
    && forall m :: 0 <= m < k ==> !StartsWith(entries[m], id)
  }

  /** The index of the first entry that starts with `id`, or -1 if none does. */
  function FirstMatch(entries: seq<string>, id: string): (k: int)
    ensures k == -1 || IsFirstMatch(entries, id, k)
    ensures k == -1 <==> forall m :: 0 <= m < |entries| ==> !StartsWith(entries[m], id)
  {
    if |entries| == 0 then -1
    else if StartsWith(entries[0], id) then 0
    else
      var k := FirstMatch(entries[1..], id);
      assert forall m :: 1 <= m < |entries| ==> entries[m] == entries[1..][m - 1];
      if k == -1 then -1 else k + 1
  }

  /** The paths one id contributes: the joined path of its first matching entry,
      or nothing when no entry matches or the match is an empty name (an empty
      string is falsy). */
  function Resolve(dir: string, entries: seq<string>, id: string, join: (string, string) -> string)
    : (paths: seq<string>)
    ensures |paths| <= 1
    ensures paths != [] ==>
      exists k :: IsFirstMatch(entries, id, k) && entries[k] != "" && paths == [join(dir, entries[k])]
    ensures paths == [] <==>
      || (forall m :: 0 <= m < |entries| ==> !StartsWith(entries[m], id))
      || (id == "" && |entries| > 0 && entries[0] == "")
  {
    var k := FirstMatch(entries, id);
    if k >= 0 && entries[k] != "" then [join(dir, entries[k])] else []
  }

  /** The paths of all ids, in id order. */
  function ResolveAll(dir: string, entries: seq<string>, ids: seq<string>, join: (string, string) -> string)
    : (paths: seq<string>)
    ensures |paths| <= |ids|
    ensures forall t :: 0 <= t < |paths| ==>
      exists k :: 0 <= k < |entries| && paths[t] == join(dir, entries[k])
  {
    if |ids| == 0 then []
    else
      var head := Resolve(dir, entries, ids[0], join);
      var tail := ResolveAll(dir, entries, ids[1..], join);
      assert forall t :: |head| <= t < |head| + |tail| ==> (head + tail)[t] == tail[t - |head|];
      head + tail
  }

  /** `listFiles`: the first manifest line is the directory, the remaining lines
      are ids; each id contributes at most one path, so there are no more paths
      than id lines, and every path joins the directory with one of its entries. */
  function ListFiles(manifest: string, readDir: string -> seq<string>, join: (string, string) -> string)
    : (paths: seq<string>)
    ensures |paths| <= |ManifestLines(manifest)| - 1
    ensures forall t :: 0 <= t < |paths| ==>
      var dir := ManifestLines(manifest)[0];
      exists k :: 0 <= k < |readDir(dir)| && paths[t] == join(dir, readDir(dir)[k])
    ensures var dir := ManifestLines(manifest)[0];
      paths == ResolveAll(dir, readDir(dir), ManifestLines(manifest)[1..], join)
  {
    var lines := ManifestLines(manifest);
    var dir := lines[0];
    ResolveAll(dir, readDir(dir), lines[1..], join)
  }

  /** Resolution distributes over concatenation of id lists: the paths follow
      the order of the id lines, each id's contribution in its place. */
  lemma {:induction false} ResolveAllAppend(dir: string, entries: seq<string>, ids1: seq<string>, ids2: seq<string>,
                                            join: (string, string) -> string)
    ensures ResolveAll(dir, entries, ids1 + ids2, join)
         == ResolveAll(dir, entries, ids1, join) + ResolveAll(dir, entries, ids2, join)
    decreases |ids1|
  {
    if |ids1| > 0 {
      assert (ids1 + ids2)[0] == ids1[0];
      assert (ids1 + ids2)[1..] == ids1[1..] + ids2;
      ResolveAllAppend(dir, entries, ids1[1..], ids2, join);
    } else {
      assert ids1 + ids2 == ids2;
    }
  }

  /** A single id resolves on its own: together with `ResolveAllAppend` and the
      empty list, this pins `ResolveAll` down as the id-by-id concatenation of
      `Resolve`. */
  lemma ResolveAllSingle(dir: string, entries: seq<string>, id: string, join: (string, string) -> string)
    ensures ResolveAll(dir, entries, [], join) == []
    ensures ResolveAll(dir, entries, [id], join) == Resolve(dir, entries, id, join)
  {
    assert [id][1..] == [];
    assert Resolve(dir, entries, id, join) + [] == Resolve(dir, entries, id, join);
  }

  /** A blank id line matches the first directory entry, since every name starts
      with the empty string. */
  lemma BlankIdMatchesFirstEntry(dir: string, entries: seq<string>, join: (string, string) -> string)
    requires |entries| > 0 && entries[0] != ""
    ensures Resolve(dir, entries, "", join) == [join(dir, entries[0])]
  {
    assert IsFirstMatch(entries, "", 0);
  }

  /** Line feeds split lines and surrounding whitespace, carriage returns
      included, is trimmed. */
  lemma ManifestLinesAreTrimmed(manifest: string)
    ensures |ManifestLines(manifest)| == |Split(manifest, '\n')|
    ensures forall i :: 0 <= i < |ManifestLines(manifest)| ==>
      ManifestLines(manifest)[i] == Trim(Split(manifest, '\n')[i]) && '\n' !in ManifestLines(manifest)[i]
  {
    var parts := Split(manifest, '\n');
    forall i | 0 <= i < |parts|
      ensures '\n' !in ManifestLines(manifest)[i]
    {
      var pre, post := TrimSplits(parts[i]);
    }
  }

  /** Trimming distributes over concatenation of line lists. */
  lemma {:induction false} TrimAllAppend(a: seq<string>, b: seq<string>)
    ensures TrimAll(a + b) == TrimAll(a) + TrimAll(b)
    decreases |a|
  {
    if |a| == 0 {
      assert a + b == b;
    } else {
      assert (a + b)[0] == a[0] && (a + b)[1..] == a[1..] + b;
      TrimAllAppend(a[1..], b);
    }
  }

  /** A trailing line feed adds one blank line and changes no other line. */
  lemma ManifestLinesTrailing(manifest: string)
    ensures ManifestLines(manifest + "\n") == ManifestLines(manifest) + [""]
  {
    SplitTrailingSeparator(manifest, '\n');
    TrimAllAppend(Split(manifest, '\n'), [""]);
    TrimOfTrimmed("");
    assert TrimAll([""]) == [""];
  }

  /** As written, a trailing line feed (as most editors save text files) adds a
      blank id, which resolves to the directory's first entry: the result gains
      that entry's path although no id named it. */
  lemma TrailingNewlineAddsFirstEntry(manifest: string, readDir: string -> seq<string>, join: (string, string) -> string)
    requires var dir := ManifestLines(manifest)[0]; |readDir(dir)| > 0 && readDir(dir)[0] != ""
    ensures var dir := ManifestLines(manifest)[0];
      ListFiles(manifest + "\n", readDir, join)
        == ListFiles(manifest, readDir, join) + [join(dir, readDir(dir)[0])]
  {
    var lines := ManifestLines(manifest);
    var dir := lines[0];
    var entries := readDir(dir);
    ManifestLinesTrailing(manifest);
    var lines' := ManifestLines(manifest + "\n");
    assert lines'[0] == dir;
    assert lines'[1..] == lines[1..] + [""];
    ResolveAllAppend(dir, entries, lines[1..], [""], join);
    BlankIdMatchesFirstEntry(dir, entries, join);
    assert ResolveAll(dir, entries, [""], join) == Resolve(dir, entries, "", join) + [];
  }

  /** The lines of the two-line manifest used below: directory `r`, id `a`. */
  lemma ExampleLines()
    ensures ManifestLines("r\na") == ["r", "a"]
  {
    assert Split("r\na", '\n') == ["r", "a"] by {
      assert "r\na" == "r" + ['\n'] + "a";
      SplitAfterPiece("r", '\n', "a");
      SplitNoSeparator("a", '\n');
    }
    TrimOfTrimmed("r");
    TrimOfTrimmed("a");
    assert TrimAll(["a"]) == [Trim("a")] + TrimAll([]);
    assert TrimAll(["r", "a"]) == [Trim("r")] + TrimAll(["a"]);
  }

  /** Without the trailing line feed, id `a` resolves to entry `a.pdf` only. */
  lemma ExampleWithoutTrailingNewline(join: (string, string) -> string)
    ensures ListFiles("r\na", d => ["x.png", "a.pdf"], join) == [join("r", "a.pdf")]
  {
    var entries := ["x.png", "a.pdf"];
    ExampleLines();
    assert IsFirstMatch(entries, "a", 1);
    assert ResolveAll("r", entries, ["a"], join) == Resolve("r", entries, "a", join) + [];
    assert ["r", "a"][1..] == ["a"];
  }

  /** A concrete manifest showing the extra path: directory `r`, id `a` and a
      trailing line feed, over a listing with `x.png` before `a.pdf`. The result
      holds `x.png`'s path, which no id named. */
  lemma TrailingNewlineExample(join: (string, string) -> string)
    ensures ListFiles("r\na\n", d => ["x.png", "a.pdf"], join)
         == [join("r", "a.pdf"), join("r", "x.png")]
  {
    var readDir := (d: string) => ["x.png", "a.pdf"];
    ExampleLines();
    ExampleWithoutTrailingNewline(join);
    TrailingNewlineAddsFirstEntry("r\na", readDir, join);
    assert "r\na" + "\n" == "r\na\n";
  }

  // ---------------------------------------------------------------------------
  // Corrected resolution: blank id lines are skipped.

  /** The ids that are not blank, in order. */
  function NonBlank(ids: seq<string>): (kept: seq<string>)
    ensures |kept| <= |ids|
    ensures forall t :: 0 <= t < |kept| ==> kept[t] != "" && kept[t] in ids
    ensures forall i :: 0 <= i < |ids| && ids[i] != "" ==> ids[i] in kept
  {
    if |ids| == 0 then []
    else if ids[0] == "" then NonBlank(ids[1..])
    else [ids[0]] + NonBlank(ids[1..])
  }

  /** `listFiles` with blank id lines skipped, so that a blank line, trailing
      or not, contributes nothing. */
  function ListFilesSkippingBlank(manifest: string, readDir: string -> seq<string>, join: (string, string) -> string)
    : (paths: seq<string>)
    ensures |paths| <= |ManifestLines(manifest)| - 1
  {
    var lines := ManifestLines(manifest);
    var dir := lines[0];
    ResolveAll(dir, readDir(dir), NonBlank(lines[1..]), join)
  }

  /** Skipping blanks distributes over concatenation. */
  lemma {:induction false} NonBlankAppend(a: seq<string>, b: seq<string>)
    ensures NonBlank(a + b) == NonBlank(a) + NonBlank(b)
    decreases |a|
  {
    if |a| == 0 {
      assert a + b == b;
    } else {
      assert (a + b)[0] == a[0] && (a + b)[1..] == a[1..] + b;
      NonBlankAppend(a[1..], b);
    }
  }

  /** With blank lines skipped, a trailing line feed changes nothing. */
  lemma TrailingNewlineIgnored(manifest: string, readDir: string -> seq<string>, join: (string, string) -> string)
    ensures ListFilesSkippingBlank(manifest + "\n", readDir, join) == ListFilesSkippingBlank(manifest, readDir, join)
  {
    var lines := ManifestLines(manifest);
    ManifestLinesTrailing(manifest);
    var lines' := ManifestLines(manifest + "\n");
    assert lines'[0] == lines[0];
    assert lines'[1..] == lines[1..] + [""];
    NonBlankAppend(lines[1..], [""]);
    assert NonBlank([""]) == [];
    assert NonBlank(lines[1..]) + [] == NonBlank(lines[1..]);
  }

  /** Where no id line is blank, the corrected listing agrees with `listFiles`
      as written. */
  lemma SkippingBlankAgrees(manifest: string, readDir: string -> seq<string>, join: (string, string) -> string)
    requires forall i :: 1 <= i < |ManifestLines(manifest)| ==> ManifestLines(manifest)[i] != ""
    ensures ListFilesSkippingBlank(manifest, readDir, join) == ListFiles(manifest, readDir, join)
  {
    NonBlankIdentity(ManifestLines(manifest)[1..]);
  }

  /** Dropping blanks from a list without blanks leaves it unchanged. */
  lemma {:induction false} NonBlankIdentity(ids: seq<string>)
    requires forall i :: 0 <= i < |ids| ==> ids[i] != ""
    ensures NonBlank(ids) == ids
    decreases |ids|
  {
    if |ids| > 0 {
      NonBlankIdentity(ids[1..]);
    }
  }
}
