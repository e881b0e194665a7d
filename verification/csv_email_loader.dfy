/** `CSVEmailLoader` (src/services/csvEmailLoader.ts) once the text has been
    fetched: the quote-toggling field splitter `parseCSVLine`, and the part of
    `loadEmailsFromCSV` that turns the lines of the text into one key/value
    record per non-blank data line, keyed by the trimmed headers and carrying
    a synthetic id `email_<n>`. */
module CsvEmailLoader {
  import opened Seqs
  import opened Text

  // ---------------------------------------------------------------------------
  // Splitting one line into fields

  /** The fields of `s` when reading starts inside quotes (`inQuotes`) or not.
      A double quote only flips the mode and is dropped; a comma outside quotes
      ends a field; every other character belongs to the current field. */
  function FieldsFrom(s: string, inQuotes: bool): (r: seq<string>)
    ensures |r| >= 1
  {
    if s == [] then [""]
    else if s[0] == '"' then FieldsFrom(s[1..], !inQuotes)
    else
      var rest := FieldsFrom(s[1..], inQuotes);
      if s[0] == ',' && !inQuotes then [""] + rest
      else [[s[0]] + rest[0]] + rest[1..]
  }

  /** The fields of a whole line (reading starts outside quotes). */
  function Fields(line: string): seq<string>
  {
    FieldsFrom(line, false)
  }

  /** The line with every double quote removed. */
  function RemoveQuotes(s: string): string
  {
    Keep(s, c => c != '"')
  }

  /** The comma at index `i` separates two fields: an even number of double
      quotes precede it. */
  predicate IsSeparator(line: string, i: nat)
    requires i < |line|
  {
    line[i] == ',' && CountChar(line[..i], '"') % 2 == 0
  }

  /** Number of separating commas among the first `n` characters. */
  function SeparatorCount(line: string, n: nat): nat
    requires n <= |line|
  {
    if n == 0 then 0 else SeparatorCount(line, n - 1) + (if IsSeparator(line, n - 1) then 1 else 0)
  }

  /** `parseCSVLine`: walks the line once, toggling `inQuotes` on every double
      quote, closing the current field on a comma outside quotes and
      appending every other character to it. It returns one more field than
      there are separating commas, which is never zero. */
  method ParseCsvLine(line: string) returns (result: seq<string>)
    ensures result == Fields(line)
    ensures |result| == SeparatorCount(line, |line|) + 1
    ensures forall field :: field in result ==> '"' !in field
    ensures Join(result, ',') == RemoveQuotes(line)
  {
    result := [];
    var current := "";
    var inQuotes := false;
    assert line[0..] == line;
    ghost var initial := FieldsFrom(line, false);
    assert "" + initial[0] == initial[0];
    assert [] + [initial[0]] + initial[1..] == initial;
    for i := 0 to |line|
      invariant inQuotes <==> CountChar(line[..i], '"') % 2 == 1
      invariant |result| == SeparatorCount(line, i)
      invariant var rest := FieldsFrom(line[i..], inQuotes);
        Fields(line) == result + [current + rest[0]] + rest[1..]
    {
      var c := line[i];
      assert line[..i + 1] == line[..i] + [c];
      CountCharAppend(line[..i], c, '"');
      assert line[i..] == [c] + line[i + 1..];
      var here := FieldsFrom(line[i..], inQuotes);
      if c == '"' {
        assert here == FieldsFrom(line[i + 1..], !inQuotes);
        inQuotes := !inQuotes;
      } else if c == ',' && !inQuotes {
        var rest := FieldsFrom(line[i + 1..], inQuotes);
        assert here == [""] + rest;
        assert here[0] == "" && here[1..] == rest;
        assert current + "" == current && "" + rest[0] == rest[0];
        assert [rest[0]] + rest[1..] == rest;
        assert result + [current + here[0]] + here[1..] == (result + [current]) + ["" + rest[0]] + rest[1..];
        result := result + [current];
        current := "";
      } else {
        var rest := FieldsFrom(line[i + 1..], inQuotes);
        assert here == [[c] + rest[0]] + rest[1..];
        assert current + here[0] == (current + [c]) + rest[0];
        current := current + [c];
      }
    }
    assert line[|line|..] == [];
    assert FieldsFrom(line[|line|..], inQuotes) == [""];
    assert current + "" == current;
    result := result + [current];
    FieldsHaveNoQuotes(line, false);
    JoinFields(line, false);
  }

  /** No field holds a double quote. */
  lemma {:induction false} FieldsHaveNoQuotes(s: string, inQuotes: bool)
    ensures forall field :: field in FieldsFrom(s, inQuotes) ==> '"' !in field
  {
    if s != [] {
      if s[0] == '"' {
        FieldsHaveNoQuotes(s[1..], !inQuotes);
      } else {
        FieldsHaveNoQuotes(s[1..], inQuotes);
        var rest := FieldsFrom(s[1..], inQuotes);
        assert rest[0] in rest;
        forall field | field in rest[1..] ensures field in rest { }
      }
    }
  }

  /** Round trip: the fields joined with commas give back the line without
      its double quotes; in particular a comma inside quotes stays in its
      field as text. */
  lemma {:induction false} JoinFields(s: string, inQuotes: bool)
    ensures Join(FieldsFrom(s, inQuotes), ',') == RemoveQuotes(s)
  {
    if s != [] {
      assert s == [s[0]] + s[1..];
      KeepAppend([s[0]], s[1..], c => c != '"');
      if s[0] == '"' {
        JoinFields(s[1..], !inQuotes);
      } else {
        JoinFields(s[1..], inQuotes);
        var rest := FieldsFrom(s[1..], inQuotes);
        if s[0] == ',' && !inQuotes {
          JoinEmptyHead(rest, ',');
        } else {
          JoinExtendHead(s[0], rest, ',');
        }
      }
    }
  }

  /** A line without double quotes is split at every comma, exactly as
      `split(',')` would. */
  lemma {:induction false} UnquotedLineIsSplit(s: string)
    requires '"' !in s
    ensures Fields(s) == Split(s, ',')
  {
    if s != [] {
      assert '"' !in s[1..];
      UnquotedLineIsSplit(s[1..]);
    }
  }

  /** A line without double quotes and without commas is a single field. */
  lemma PlainLineIsOneField(s: string)
    requires '"' !in s && ',' !in s
    ensures Fields(s) == [s]
  {
    UnquotedLineIsSplit(s);
    SplitWithoutSeparator(s, ',');
  }

  /** A comma between double quotes is text, not a separator: `x,"a,b"`
      has the two fields `x` and `a,b`. */
  lemma QuotedCommaExample()
    ensures Fields("x,\"a,b\"") == ["x", "a,b"]
  {
    assert FieldsFrom("\"", true) == [""] by {
      assert "\""[1..] == "";
    }
    assert FieldsFrom("b\"", true) == ["b"] by {
      assert "b\""[1..] == "\"";
      assert ['b'] + "" == "b" && [""][1..] == [];
    }
    assert FieldsFrom(",b\"", true) == [",b"] by {
      assert ",b\""[1..] == "b\"";
      assert [','] + "b" == ",b" && ["b"][1..] == [];
    }
    assert FieldsFrom("a,b\"", true) == ["a,b"] by {
      assert "a,b\""[1..] == ",b\"";
      assert ['a'] + ",b" == "a,b" && [",b"][1..] == [];
    }
    assert FieldsFrom("\"a,b\"", false) == ["a,b"] by {
      assert "\"a,b\""[1..] == "a,b\"";
    }
    assert FieldsFrom(",\"a,b\"", false) == ["", "a,b"] by {
      assert ",\"a,b\""[1..] == "\"a,b\"";
    }
    assert "x,\"a,b\""[1..] == ",\"a,b\"";
    assert ['x'] + "" == "x" && ["", "a,b"][1..] == ["a,b"];
  }

  // ---------------------------------------------------------------------------
  // Building records

  /** The synthetic id of the `n`-th kept data line: `email_` followed by
      digits that read back as `n`. */
  function EmailId(n: nat): (id: string)
    ensures |id| > 6 && id[..6] == "email_"
    ensures forall i :: 6 <= i < |id| ==> IsDigit(id[i])
    ensures ParseNat(id[6..]) == n
  {
    ParseNatToString(n);
    assert ("email_" + NatToString(n))[6..] == NatToString(n);
    "email_" + NatToString(n)
  }

  /** Different line numbers give different ids. */
  lemma EmailIdsDistinct(a: nat, b: nat)
    requires a != b
    ensures EmailId(a) != EmailId(b)
  {
  }

  /** `values[i]?.trim() || ''`: the field at position `i` without its
      surrounding whitespace, or the empty string when the row is too short. */
  function Cell(values: seq<string>, i: nat): (v: string)
    ensures i >= |values| ==> v == ""
    ensures v == [] || (!IsWhitespace(v[0]) && !IsWhitespace(v[|v| - 1]))
    ensures i < |values| ==> IsTrimOf(values[i], v)
  {
    if i < |values| then
      TrimCharacterized(values[i]);
      Trim(values[i])
    else ""
  }

  /** The keys the headers give: each header trimmed. */
  function Names(headers: seq<string>): seq<string>
  {
    seq(|headers|, i requires 0 <= i < |headers| => Trim(headers[i]))
  }

  /** The cell stored under each of the first `n` headers. */
  function Cells(values: seq<string>, n: nat): seq<string>
  {
    seq(n, i requires 0 <= i < n => Cell(values, i))
  }

  /** No later name among the first `upTo` equals name `i`. */
  predicate LastOfItsKey(names: seq<string>, i: nat, upTo: nat)
    requires i < upTo <= |names|
  {
    forall j :: i < j < upTo ==> names[j] != names[i]
  }

  /** What `loadEmailsFromCSV` builds for one row: a key per trimmed header
      plus `id`; a header that is the last one with its key maps to the
      trimmed field at its position (or ""), and `id` is `email_<n>`. */
  ghost predicate IsRecordFor(rec: map<string, string>, headers: seq<string>, values: seq<string>, n: nat)
  {
    var names := Names(headers);
    && rec.Keys == (set k | k in names) + {"id"}
    && rec["id"] == EmailId(n)
    && forall i :: 0 <= i < |names| && names[i] != "id" && LastOfItsKey(names, i, |names|)
         ==> rec[names[i]] == Cell(values, i)
  }

  ghost function Elems(s: seq<string>): set<string>
  {
    set k | k in s
  }

  /** The map after storing `cells[k]` under `names[k]` for every `k < i`, in order. */
  ghost predicate FilledUpTo(rec: map<string, string>, names: seq<string>, cells: seq<string>, i: nat)
    requires i <= |names| == |cells|
  {
    && rec.Keys == Elems(names[..i])
    && forall k :: 0 <= k < i && LastOfItsKey(names, k, i) ==> rec[names[k]] == cells[k]
  }

  /** Storing the next pair keeps the map filled one step further. */
  lemma FillStep(rec: map<string, string>, names: seq<string>, cells: seq<string>, i: nat)
    requires i < |names| == |cells| && FilledUpTo(rec, names, cells, i)
    ensures FilledUpTo(rec[names[i] := cells[i]], names, cells, i + 1)
  {
    var next := rec[names[i] := cells[i]];
    assert Elems(names[..i + 1]) == Elems(names[..i]) + {names[i]} by {
      assert names[..i + 1] == names[..i] + [names[i]];
    }
    forall k | 0 <= k < i + 1 && LastOfItsKey(names, k, i + 1)
      ensures next[names[k]] == cells[k]
    {
      if k < i {
        assert names[k] != names[i];
        assert LastOfItsKey(names, k, i);
      }
    }
  }

  /** Once every header is visited, adding the id gives the finished record. */
  lemma FinishRecord(rec: map<string, string>, headers: seq<string>, values: seq<string>, n: nat)
    requires FilledUpTo(rec, Names(headers), Cells(values, |headers|), |headers|)
    ensures IsRecordFor(rec["id" := EmailId(n)], headers, values, n)
  {
    assert Names(headers)[..|headers|] == Names(headers);
  }

  /** The `headers.forEach` that fills one record, then the id assignment. */
  method BuildRecord(headers: seq<string>, values: seq<string>, n: nat) returns (rec: map<string, string>)
    ensures IsRecordFor(rec, headers, values, n)
  {
    ghost var names := Names(headers);
    ghost var cells := Cells(values, |headers|);
    rec := map[];
    assert FilledUpTo(rec, names, cells, 0);
    for i := 0 to |headers|
      invariant FilledUpTo(rec, names, cells, i)
    {
      var key := Trim(headers[i]);
      var cell := Cell(values, i);
      FillStep(rec, names, cells, i);
      assert key == names[i] && cell == cells[i];
      rec := rec[key := cell];
    }
    FinishRecord(rec, headers, values, n);
    rec := rec["id" := EmailId(n)];
  }

  /** The lines of the text, the header fields (split on every comma, without
      the quote handling), and the data lines that are not blank. */
  function Lines(csvText: string): (lines: seq<string>)
    ensures |lines| >= 1
  {
    Split(csvText, '\n')
  }

  function Headers(csvText: string): seq<string>
  {
    Split(Lines(csvText)[0], ',')
  }

  /** The data lines kept: in order, every occurrence of a line after the
      first whose trimmed text is not empty, and nothing else. */
  function DataLines(csvText: string): (kept: seq<string>)
    ensures IsSubsequence(kept, Lines(csvText)[1..])
    ensures forall line :: line in kept ==> Trim(line) != ""
    ensures forall line :: multiset(kept)[line]
              == if Trim(line) != "" then multiset(Lines(csvText)[1..])[line] else 0
  {
    KeepMultiset(Lines(csvText)[1..], line => Trim(line) != "");
    Keep(Lines(csvText)[1..], line => Trim(line) != "")
  }

  /** `loadEmailsFromCSV` after the fetch: one record per non-blank data line,
      in order, the `k`-th (from 1) carrying id `email_k`, so no two records
      share an id. */
  method LoadEmailsFromCsv(csvText: string) returns (records: seq<map<string, string>>)
    ensures |records| == |DataLines(csvText)|
    ensures forall k :: 0 <= k < |records| ==>
      IsRecordFor(records[k], Headers(csvText), Fields(DataLines(csvText)[k]), k + 1)
    ensures forall j, k :: 0 <= j < k < |records| ==>
      "id" in records[j] && "id" in records[k] && records[j]["id"] != records[k]["id"]
  {
    var lines := Split(csvText, '\n');
    var headers := Split(lines[0], ',');
    var kept := Keep(lines[1..], line => Trim(line) != "");
    assert headers == Headers(csvText) && kept == DataLines(csvText);
    records := [];
    for k := 0 to |kept|
      invariant |records| == k
      invariant forall j :: 0 <= j < k ==> IsRecordFor(records[j], headers, Fields(kept[j]), j + 1)
    {
      var values := ParseCsvLine(kept[k]);
      var email := BuildRecord(headers, values, k + 1);
      records := records + [email];
    }
    forall j, k | 0 <= j < k < |records|
      ensures "id" in records[j] && "id" in records[k] && records[j]["id"] != records[k]["id"]
    {
      EmailIdsDistinct(j + 1, k + 1);
    }
  }
}
