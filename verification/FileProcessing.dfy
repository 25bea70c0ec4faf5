/** `file_processing.rs`: a file of comma-separated lines used as a table keyed by the first
    field. */
module FileProcessing {
  import opened Text

  /** First field of a line. */
  function Key(line: string): string {
    Trim(Split(line, ',')[0])
  }

  function Replace(lines: seq<string>, data: string, key: string): seq<string> {
    if lines == [] then []
    else [if Key(lines[0]) == key then data else lines[0]] + Replace(lines[1..], data, key)
  }

  predicate HasKey(lines: seq<string>, key: string) {
    exists i :: 0 <= i < |lines| && Key(lines[i]) == key
  }

  /** The lines after `update_csv_file`. */
  function Upsert(lines: seq<string>, data: string, key: string): seq<string> {
    Replace(lines, data, key) + if HasKey(lines, key) then [] else [data]
  }

  lemma {:induction false} ReplaceAt(lines: seq<string>, data: string, key: string)
    ensures |Replace(lines, data, key)| == |lines|
    ensures forall i :: 0 <= i < |lines| ==>
      Replace(lines, data, key)[i] == if Key(lines[i]) == key then data else lines[i]
  {
    if lines != [] {
      ReplaceAt(lines[1..], data, key);
    }
  }

  lemma {:induction false} ReplaceConcat(a: seq<string>, b: seq<string>, data: string, key: string)
    ensures Replace(a + b, data, key) == Replace(a, data, key) + Replace(b, data, key)
  {
    if a == [] {
      assert a + b == b;
    } else {
      assert (a + b)[1..] == a[1..] + b;
      ReplaceConcat(a[1..], b, data, key);
    }
  }

  lemma HasKeyConcat(lines: seq<string>, line: string, key: string)
    ensures HasKey(lines + [line], key) <==> HasKey(lines, key) || Key(line) == key
  {
    assert (lines + [line])[|lines|] == line;
    if HasKey(lines, key) {
      var i :| 0 <= i < |lines| && Key(lines[i]) == key;
      assert (lines + [line])[i] == lines[i];
    }
  }

  class CsvFile {
    /** A file that does not exist has no lines. */
    var lines: seq<string>

    constructor (lines: seq<string>)
      ensures this.lines == lines
    {
      this.lines := lines;
    }

    method UpdateCsvFile(data: string, key: string)
      modifies this
      ensures lines == Upsert(old(lines), data, key)
    {
      var read := lines;
      var out: seq<string> := [];
      var found := false;
      for i := 0 to |read|
        invariant out == Replace(read[..i], data, key)
        invariant found <==> HasKey(read[..i], key)
      {
        ReplaceLast(read[..i], read[i], data, key);
        HasKeyConcat(read[..i], read[i], key);
        assert read[..i + 1] == read[..i] + [read[i]];
        if key == Key(read[i]) {
          out := out + [data];
          found := true;
        } else {
          out := out + [read[i]];
        }
      }
      assert read[..|read|] == read;
      if !found {
        out := out + [data];
      }
      lines := out;
    }
  }

  // ----- the table that the lines hold -----

  ghost predicate UniqueKeys(lines: seq<string>) {
    forall i, j :: 0 <= i < j < |lines| ==> Key(lines[i]) != Key(lines[j])
  }

  function Table(lines: seq<string>): map<string, string> {
    if lines == [] then map[] else Table(lines[..|lines| - 1])[Key(lines[|lines| - 1]) := lines[|lines| - 1]]
  }

  lemma {:induction false} TableKey(lines: seq<string>, k: string)
    ensures k in Table(lines) <==> HasKey(lines, k)
  {
    if lines != [] {
      var rest, last := lines[..|lines| - 1], lines[|lines| - 1];
      TableKey(rest, k);
      HasKeyConcat(rest, last, k);
      assert rest + [last] == lines;
    }
  }

  lemma LastKeyIsNew(rest: seq<string>, last: string)
    requires UniqueKeys(rest + [last])
    ensures Key(last) !in Table(rest)
  {
    TableKey(rest, Key(last));
    forall i | 0 <= i < |rest| ensures Key(rest[i]) != Key(last) {
      assert (rest + [last])[i] == rest[i] && (rest + [last])[|rest|] == last;
    }
  }

  lemma {:induction false} TableReplace(lines: seq<string>, data: string, key: string)
    requires UniqueKeys(lines) && Key(data) == key
    ensures Table(Replace(lines, data, key)) == if key in Table(lines) then Table(lines)[key := data] else Table(lines)
  {
    if lines != [] {
      var rest, last := lines[..|lines| - 1], lines[|lines| - 1];
      assert rest + [last] == lines;
      LastKeyIsNew(rest, last);
      TableReplace(rest, data, key);
      ReplaceLast(rest, last, data, key);
      TableConcat(Replace(rest, data, key), if Key(last) == key then data else last);
      if Key(last) != key {
        MapSwap(Table(rest), key, data, Key(last), last);
      }
    }
  }

  lemma ReplaceLast(rest: seq<string>, last: string, data: string, key: string)
    ensures Replace(rest + [last], data, key) == Replace(rest, data, key) + [if Key(last) == key then data else last]
  {
    ReplaceConcat(rest, [last], data, key);
  }

  lemma MapSwap(m: map<string, string>, k: string, v: string, k': string, v': string)
    requires k != k'
    ensures m[k := v][k' := v'] == m[k' := v'][k := v]
  {
  }

  lemma TableConcat(lines: seq<string>, line: string)
    ensures Table(lines + [line]) == Table(lines)[Key(line) := line]
  {
    assert (lines + [line])[..|lines|] == lines;
  }

  /** A known key keeps every line in its place and a new key goes to the end. */
  lemma UpsertAt(lines: seq<string>, data: string, key: string)
    requires Key(data) == key
    ensures |Upsert(lines, data, key)| == |lines| + if HasKey(lines, key) then 0 else 1
    ensures forall i :: 0 <= i < |lines| ==>
      Upsert(lines, data, key)[i] == if Key(lines[i]) == key then data else lines[i]
    ensures !HasKey(lines, key) ==> Upsert(lines, data, key)[|lines|] == data
    ensures forall i :: 0 <= i < |lines| ==> Key(Upsert(lines, data, key)[i]) == Key(lines[i])
  {
    ReplaceAt(lines, data, key);
  }

  lemma UpsertUnique(lines: seq<string>, data: string, key: string)
    requires UniqueKeys(lines) && Key(data) == key
    ensures UniqueKeys(Upsert(lines, data, key))
  {
    UpsertAt(lines, data, key);
    var out := Upsert(lines, data, key);
    forall i, j | 0 <= i < j < |out| ensures Key(out[i]) != Key(out[j]) {
      if j == |lines| {
        assert Key(lines[i]) != key;
      }
    }
  }

  /** One update: keys stay unique and the key maps to the new line, all others to their own. */
  lemma UpsertIsUpdate(lines: seq<string>, data: string, key: string)
    requires UniqueKeys(lines) && Key(data) == key
    ensures UniqueKeys(Upsert(lines, data, key))
    ensures Table(Upsert(lines, data, key)) == Table(lines)[key := data]
  {
    UpsertUnique(lines, data, key);
    TableReplace(lines, data, key);
    TableKey(lines, key);
    if key !in Table(lines) {
      TableConcat(Replace(lines, data, key), data);
    } else {
      assert Upsert(lines, data, key) == Replace(lines, data, key);
    }
  }

  /** Any sequence of updates does to the lines what it does to a map. */
  function UpsertAll(lines: seq<string>, updates: seq<string>): seq<string>
    decreases updates
  {
    if updates == [] then lines
    else UpsertAll(Upsert(lines, updates[0], Key(updates[0])), updates[1..])
  }

  function UpdateAll(m: map<string, string>, updates: seq<string>): map<string, string>
    decreases updates
  {
    if updates == [] then m else UpdateAll(m[Key(updates[0]) := updates[0]], updates[1..])
  }

  lemma {:induction false} UpsertsSimulateMap(lines: seq<string>, updates: seq<string>)
    requires UniqueKeys(lines)
    ensures UniqueKeys(UpsertAll(lines, updates))
    ensures Table(UpsertAll(lines, updates)) == UpdateAll(Table(lines), updates)
    decreases updates
  {
    if updates != [] {
      UpsertIsUpdate(lines, updates[0], Key(updates[0]));
      UpsertsSimulateMap(Upsert(lines, updates[0], Key(updates[0])), updates[1..]);
    }
  }

  // ----- the text of the file -----

  function FileText(lines: seq<string>): string {
    if lines == [] then "" else lines[0] + "\n" + FileText(lines[1..])
  }

  function ChopReturn(line: string): string {
    if line != "" && line[|line| - 1] == '\r' then line[..|line| - 1] else line
  }

  /** `BufRead::lines`: cut at line feeds, without the piece after the last one when it is empty,
      and without one carriage return at the end of each line. */
  function ReadLines(text: string): seq<string> {
    var pieces := Split(text, '\n');
    var n := if pieces[|pieces| - 1] == "" then |pieces| - 1 else |pieces|;
    seq(n, i requires 0 <= i < n => ChopReturn(pieces[i]))
  }

  lemma {:induction false} FileTextSplits(lines: seq<string>)
    requires forall i :: 0 <= i < |lines| ==> '\n' !in lines[i]
    ensures Split(FileText(lines), '\n') == lines + [""]
  {
    if lines != [] {
      FileTextSplits(lines[1..]);
      assert lines[0] + "\n" + FileText(lines[1..]) == lines[0] + ['\n'] + FileText(lines[1..]);
      SplitConcat(lines[0], '\n', FileText(lines[1..]));
      SplitFree(lines[0], '\n');
    }
  }

  /** What is written is what is read back. */
  lemma ReadWhatWasWritten(lines: seq<string>)
    requires forall i :: 0 <= i < |lines| ==> '\n' !in lines[i] && ChopReturn(lines[i]) == lines[i]
    ensures ReadLines(FileText(lines)) == lines
  {
    FileTextSplits(lines);
  }

  // ----- what is read of any file -----

  /** A line as it is read: one carriage return at its end is lost, and nothing else. */
  lemma ChopReturnIs(line: string)
    ensures ChopReturn(line + "\r") == line
    ensures (line == "" || line[|line| - 1] != '\r') <==> ChopReturn(line) == line
  {
    assert (line + "\r")[..|line|] == line;
  }

  lemma {:induction false} SplitLength(s: string)
    ensures |Split(s, '\n')| == 1 <==> '\n' !in s
  {
    if s != "" {
      SplitLength(s[1..]);
      assert s == [s[0]] + s[1..];
    }
  }

  lemma {:induction false} PiecesOfText(lines: seq<string>)
    ensures |Split(FileText(lines), '\n')| >= |lines| + 1
    ensures |Split(FileText(lines), '\n')| == |lines| + 1 <==> forall i :: 0 <= i < |lines| ==> '\n' !in lines[i]
    ensures Split(FileText(lines), '\n')[|Split(FileText(lines), '\n')| - 1] == ""
  {
    if lines != [] {
      var rest := FileText(lines[1..]);
      PiecesOfText(lines[1..]);
      assert lines[0] + "\n" + rest == lines[0] + ['\n'] + rest;
      SplitConcat(lines[0], '\n', rest);
      SplitLength(lines[0]);
      assert forall i :: 1 <= i < |lines| ==> lines[i] == lines[1..][i - 1];
    }
  }

  /** What is written is read back exactly if no line holds a line feed or ends with a carriage return. */
  lemma LinesReadBackExact(lines: seq<string>)
    ensures ReadLines(FileText(lines)) == lines <==>
      forall i :: 0 <= i < |lines| ==> '\n' !in lines[i] && (lines[i] == "" || lines[i][|lines[i]| - 1] != '\r')
  {
    PiecesOfText(lines);
    if forall i :: 0 <= i < |lines| ==> '\n' !in lines[i] {
      FileTextSplits(lines);
      forall i | 0 <= i < |lines|
        ensures (lines[i] == "" || lines[i][|lines[i]| - 1] != '\r') <==> ChopReturn(lines[i]) == lines[i]
      {
        ChopReturnIs(lines[i]);
      }
      ReadUnended(lines, "");
      assert FileText(lines) + "" == FileText(lines);
    }
  }

  lemma {:induction false} TextThen(lines: seq<string>, last: string)
    requires '\n' !in last && forall i :: 0 <= i < |lines| ==> '\n' !in lines[i]
    ensures Split(FileText(lines) + last, '\n') == lines + [last]
  {
    if lines == [] {
      assert FileText(lines) + last == last;
      SplitFree(last, '\n');
    } else {
      var rest := FileText(lines[1..]) + last;
      TextThen(lines[1..], last);
      assert FileText(lines) + last == lines[0] + ['\n'] + rest;
      SplitConcat(lines[0], '\n', rest);
      SplitFree(lines[0], '\n');
    }
  }

  /** A last line that nobody ended is read too. */
  lemma ReadUnended(lines: seq<string>, last: string)
    requires '\n' !in last && forall i :: 0 <= i < |lines| ==> '\n' !in lines[i]
    ensures var read := ReadLines(FileText(lines) + last);
      && |read| == |lines| + (if last == "" then 0 else 1)
      && (forall i :: 0 <= i < |lines| ==> read[i] == ChopReturn(lines[i]))
      && (last != "" ==> read[|lines|] == ChopReturn(last))
  {
    TextThen(lines, last);
  }
}
