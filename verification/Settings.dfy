/**
 helpers/cSettings.h: a map of settings, the lines it is written as, and what is read back.
 The order in which the settings are written is that of the JSON object, which is not part of
 this model: everything here holds for every order.
 */
module Settings {

  import opened Wrappers

  type Data = map<string, string>

  // What is left of a string passed on as c_str().
  function CStr(s: string): string {
    if s == "" || s[0] == '\0' then "" else [s[0]] + CStr(s[1..])
  }

  // The pieces between newlines, the one after the last newline included: what getline reads until eof.
  function Lines(s: string): (lines: seq<string>)
    ensures |lines| > 0
  {
    if s == "" then [""]
    else if s[0] == '\n' then [""] + Lines(s[1..])
    else var rest := Lines(s[1..]); [[s[0]] + rest[0]] + rest[1..]
  }

  // find_last_of("=")
  function LastEquals(s: string): Option<nat>
    ensures LastEquals(s).Some? ==> LastEquals(s).value < |s|
  {
    if s == "" then None
    else if s[|s| - 1] == '=' then Some(|s| - 1)
    else LastEquals(s[..|s| - 1])
  }

  // The key and the value on a line.
  function Parsed(line: string): Option<(string, string)> {
    var pos := LastEquals(line);
    if pos == None then None else Some((CStr(line[..pos.value]), line[pos.value + 1..]))
  }

  function ReadLine(data: Data, line: string): Data {
    if Parsed(line) == None then data else data[Parsed(line).value.0 := Parsed(line).value.1]
  }

  function ReadLines(data: Data, lines: seq<string>): Data
    decreases |lines|
  {
    if lines == [] then data else ReadLines(ReadLine(data, lines[0]), lines[1..])
  }

  function Read(content: string): Data { ReadLines(map[], Lines(content)) }

  function LineOf(key: string, value: string): string { CStr(key) + "=" + value + "\n" }

  function Written(data: Data, order: seq<string>): string
    requires forall k :: k in order ==> k in data
  {
    if order == [] then ""
    else (if data[order[0]] == "" then "" else LineOf(order[0], data[order[0]])) + Written(data, order[1..])
  }

  // order lists the keys of data, each once.
  predicate Enumerates(order: seq<string>, data: Data) {
    && (forall k :: k in order ==> k in data)
    && (forall k :: k in data ==> k in order)
    && (forall i, j :: 0 <= i < j < |order| ==> order[i] != order[j])
  }

  function NonEmpty(data: Data): Data {
    map k | k in data && data[k] != "" :: data[k]
  }

  // ---------------------------------------------------------------------------------
  // One line
  // ---------------------------------------------------------------------------------

  lemma {:induction false} CStrFree(s: string)
    ensures '\0' !in CStr(s) && (forall c :: c in CStr(s) ==> c in s) && (CStr(s) == s <==> '\0' !in s)
  {
    if s != "" && s[0] != '\0' {
      CStrFree(s[1..]);
      assert s == [s[0]] + s[1..];
      assert CStr(s)[1..] == CStr(s[1..]);
    }
  }

  lemma {:induction false} LastEqualsIs(s: string)
    ensures LastEquals(s) == None <==> '=' !in s
    ensures LastEquals(s).Some? ==> s[LastEquals(s).value] == '=' && '=' !in s[LastEquals(s).value + 1..]
    decreases |s|
  {
    if s != "" && s[|s| - 1] != '=' {
      var front := s[..|s| - 1];
      LastEqualsIs(front);
      assert s == front + [s[|s| - 1]];
      if LastEquals(front).Some? {
        var p := LastEquals(front).value;
        assert s[p + 1..] == front[p + 1..] + [s[|s| - 1]];
      }
    }
  }

  lemma {:induction false} SplitAtLast(key: string, value: string)
    requires '=' !in value
    ensures LastEquals(key + "=" + value) == Some(|key|)
    decreases |value|
  {
    var s := key + "=" + value;
    if value != "" {
      assert s[|s| - 1] == value[|value| - 1];
      assert s[..|s| - 1] == key + "=" + value[..|value| - 1];
      SplitAtLast(key, value[..|value| - 1]);
    } else {
      assert s[|s| - 1] == '=';
    }
  }

  predicate GoodKey(key: string) { '\n' !in key && '\0' !in key }

  predicate GoodValue(value: string) { '\n' !in value && '=' !in value }

  /** A line gives its setting back exactly when the value has no equals sign; the key may have some. */
  lemma LineReadsBack(key: string, value: string)
    requires GoodKey(key)
    ensures Parsed(key + "=" + value) == Some((key, value)) <==> '=' !in value
  {
    var line := key + "=" + value;
    if '=' !in value {
      SplitAtLast(key, value);
      CStrFree(key);
      assert line[..|key|] == key && line[|key| + 1..] == value;
    } else {
      LastEqualsIs(line);
      assert line[|key|] == '=';
    }
  }

  // ---------------------------------------------------------------------------------
  // The file
  // ---------------------------------------------------------------------------------

  lemma {:induction false} FirstLine(line: string, rest: string)
    requires '\n' !in line
    ensures Lines(line + "\n" + rest) == [line] + Lines(rest)
    decreases |line|
  {
    var s := line + "\n" + rest;
    if line == "" {
      assert s[0] == '\n' && s[1..] == rest;
    } else {
      assert s[0] == line[0] && s[1..] == line[1..] + "\n" + rest;
      FirstLine(line[1..], rest);
      assert [line[0]] + line[1..] == line;
      assert ([line[1..]] + Lines(rest))[1..] == Lines(rest);
    }
  }

  // ---------------------------------------------------------------------------------
  // Any file
  // ---------------------------------------------------------------------------------

  // The line has an equals sign, and what is around the last one is this key, up to a NUL, and this value.
  predicate Gives(line: string, key: string, value: string) {
    exists p :: 0 <= p < |line| && SplitsAt(line, p) && CStr(line[..p]) == key && line[p + 1..] == value
  }

  predicate SplitsAt(line: string, p: nat)
    requires p < |line|
  {
    line[p] == '=' && '=' !in line[p + 1..]
  }

  lemma StandsBehind(line: string, p: nat, q: nat)
    requires p < |line| && q < |line|
    ensures p < q && line[q] == '=' ==> '=' in line[p + 1..]
  {
    if p < q {
      assert line[p + 1..][q - p - 1] == line[q];
    }
  }

  lemma ParsedGives(line: string, key: string, value: string)
    ensures Parsed(line) == Some((key, value)) <==> Gives(line, key, value)
  {
    LastEqualsIs(line);
    if p :| 0 <= p < |line| && SplitsAt(line, p) && CStr(line[..p]) == key && line[p + 1..] == value {
      var q := LastEquals(line).value;
      StandsBehind(line, p, q);
      StandsBehind(line, q, p);
    }
    if Parsed(line) == Some((key, value)) {
      assert SplitsAt(line, LastEquals(line).value);
    }
  }

  ghost predicate Mentions(line: string, key: string) {
    exists value :: Gives(line, key, value)
  }

  // Line i gives the key this value, and no later one mentions it.
  ghost predicate LastGives(lines: seq<string>, i: nat, key: string, value: string)
    requires i < |lines|
  {
    Gives(lines[i], key, value) && forall j :: i < j < |lines| ==> !Mentions(lines[j], key)
  }

  lemma OneLine(data: Data, line: string, key: string)
    ensures forall value :: Gives(line, key, value) ==>
      key in ReadLine(data, line) && ReadLine(data, line)[key] == value
    ensures !Mentions(line, key) ==>
      && (key in ReadLine(data, line) <==> key in data)
      && (key in data ==> ReadLine(data, line)[key] == data[key])
  {
    forall value ensures Parsed(line) == Some((key, value)) <==> Gives(line, key, value) {
      ParsedGives(line, key, value);
    }
    if Parsed(line).Some? && Parsed(line).value.0 == key {
      assert Gives(line, key, Parsed(line).value.1);
    }
  }

  /**
   From any file: a key has the value that the last line mentioning it gives, and none if no line
   does; a line without an equals sign mentions none.
   */
  lemma {:induction false} ReadAsLastGiven(data: Data, lines: seq<string>, key: string)
    ensures var read := ReadLines(data, lines);
      && (forall i, value :: 0 <= i < |lines| && LastGives(lines, i, key, value) ==> key in read && read[key] == value)
      && ((forall i :: 0 <= i < |lines| ==> !Mentions(lines[i], key)) ==>
          (key in read <==> key in data) && (key in data ==> read[key] == data[key]))
    ensures forall line, value :: '=' !in line ==> !Gives(line, key, value)
    decreases |lines|
  {
    if lines != [] {
      var rest := lines[1..];
      OneLine(data, lines[0], key);
      ReadAsLastGiven(ReadLine(data, lines[0]), rest, key);
      assert forall i :: 0 < i < |lines| ==> lines[i] == rest[i - 1];
      assert forall i :: 0 <= i < |rest| ==> rest[i] == lines[i + 1];
      forall i, value | 0 <= i < |lines| && LastGives(lines, i, key, value)
        ensures var read := ReadLines(data, lines); key in read && read[key] == value
      {
        if i > 0 {
          assert LastGives(rest, i - 1, key, value);
        }
      }
    }
  }

  // What is written is good to read: no newline or NUL in a key, no newline or '=' in a value.
  predicate Readable(data: Data) {
    forall k :: k in data && data[k] != "" ==> GoodKey(k) && GoodValue(data[k])
  }

  // The settings of `order` laid over acc.
  function Over(acc: Data, data: Data, order: seq<string>): Data
    requires forall k :: k in order ==> k in data
    decreases |order|
  {
    if order == [] then acc
    else Over(if data[order[0]] == "" then acc else acc[order[0] := data[order[0]]], data, order[1..])
  }

  lemma {:induction false} ReadWritten(acc: Data, data: Data, order: seq<string>)
    requires (forall k :: k in order ==> k in data) && Readable(data)
    ensures ReadLines(acc, Lines(Written(data, order))) == Over(acc, data, order)
    decreases |order|
  {
    if order == [] {
      assert Lines("") == [""] && ReadLine(acc, "") == acc && [""][1..] == [];
    } else {
      var k := order[0];
      assert k in order;
      var rest := Written(data, order[1..]);
      if data[k] != "" {
        var line := k + "=" + data[k];
        CStrFree(k);
        assert LineOf(k, data[k]) + rest == line + "\n" + rest;
        FirstLine(line, rest);
        LineReadsBack(k, data[k]);
        assert ([line] + Lines(rest))[1..] == Lines(rest);
        ReadWritten(acc[k := data[k]], data, order[1..]);
      } else {
        assert "" + rest == rest;
        ReadWritten(acc, data, order[1..]);
      }
    }
  }

  lemma {:induction false} OverIs(acc: Data, data: Data, order: seq<string>, k: string)
    requires forall j :: j in order ==> j in data
    ensures k in Over(acc, data, order) <==> k in acc || (k in order && data[k] != "")
    ensures k in order && data[k] != "" ==> Over(acc, data, order)[k] == data[k]
    ensures k in acc && !(k in order && data[k] != "") ==> Over(acc, data, order)[k] == acc[k]
    decreases |order|
  {
    if order != [] {
      var acc' := if data[order[0]] == "" then acc else acc[order[0] := data[order[0]]];
      OverIs(acc', data, order[1..], k);
      assert order == [order[0]] + order[1..];
    }
  }

  // No value that was read has a newline or an equals sign, and no key a newline or a NUL.
  predicate AllGood(data: Data) {
    forall k :: k in data ==> GoodKey(k) && GoodValue(data[k])
  }

  lemma {:induction false} LinesHaveNoNewline(s: string, i: nat)
    requires i < |Lines(s)|
    ensures '\n' !in Lines(s)[i]
    decreases |s|
  {
    if s != "" {
      if s[0] == '\n' {
        if i > 0 {
          LinesHaveNoNewline(s[1..], i - 1);
        }
      } else {
        LinesHaveNoNewline(s[1..], i);
      }
    }
  }

  lemma {:induction false} ReadIsGood(data: Data, lines: seq<string>)
    requires AllGood(data) && forall i :: 0 <= i < |lines| ==> '\n' !in lines[i]
    ensures AllGood(ReadLines(data, lines))
    decreases |lines|
  {
    if lines != [] {
      var line := lines[0];
      LastEqualsIs(line);
      if LastEquals(line).Some? {
        var p := LastEquals(line).value;
        CStrFree(line[..p]);
      }
      ReadIsGood(ReadLine(data, line), lines[1..]);
    }
  }

  /**
   Reading what was written gives back exactly the settings with a value if and only if none
   of them has a newline or NUL in its key or a newline or equals sign in its value.
   */
  lemma ReadsBackExactly(data: Data, order: seq<string>)
    requires Enumerates(order, data)
    ensures Read(Written(data, order)) == NonEmpty(data) <==> Readable(data)
  {
    var read := Read(Written(data, order));
    if Readable(data) {
      ReadWritten(map[], data, order);
      forall k ensures (k in read <==> k in NonEmpty(data)) && (k in read ==> read[k] == NonEmpty(data)[k]) {
        OverIs(map[], data, order, k);
      }
    }
    if read == NonEmpty(data) {
      var lines := Lines(Written(data, order));
      forall i | 0 <= i < |lines| ensures '\n' !in lines[i] {
        LinesHaveNoNewline(Written(data, order), i);
      }
      ReadIsGood(map[], lines);
      assert forall k :: k in data && data[k] != "" ==> k in read && read[k] == data[k];
    }
  }

  /** A value with an equals sign comes back under another key. */
  lemma EqualsSignMovesTheKey()
    ensures Read(Written(map["mode" := "a=b"], ["mode"])) == map["mode=a" := "b"]
  {
    var data: Data := map["mode" := "a=b"];
    CStrFree("mode");
    CStrFree("mode=a");
    var line := "mode=a=b";
    assert "mode" + "=" + "a=b" == line == "mode=a" + "=" + "b";
    assert ["mode"][1..] == [] && Written(data, ["mode"]) == LineOf("mode", "a=b") + "";
    assert LineOf("mode", "a=b") + "" == line + "\n" + "";
    FirstLine(line, "");
    assert [line] + Lines("") == [line, ""] && [line, ""][1..] == [""] && [""][1..] == [];
    LineReadsBack("mode=a", "b");
    assert ReadLine(map["mode=a" := "b"], "") == map["mode=a" := "b"];
  }
}
