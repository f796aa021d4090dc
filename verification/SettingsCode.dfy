/**
 cSettings over a file: the loops that write it and read it, and the calls that change a
 setting and write all of them again.
 */
module SettingsCode {

  import opened Wrappers
  import opened Settings

  class File {
    var present: bool
    var content: string

    constructor (present: bool, content: string)
      ensures this.present == present && this.content == content
    {
      this.present := present;
      this.content := content;
    }
  }

  // std::getline over the content of a file.
  class LineReader {
    const content: string
    var at: nat

    ghost predicate Valid()
      reads this
    {
      at <= |content| + 1
    }

    // The stream is used up: the last piece has been read.
    predicate Eof()
      reads this
    {
      at > |content|
    }

    ghost function ToCome(): seq<string>
      reads this
      requires Valid()
    {
      if Eof() then [] else Settings.Lines(content[at..])
    }

    constructor (content: string)
      ensures this.content == content && Valid() && !Eof() && ToCome() == Settings.Lines(content)
    {
      this.content := content;
      at := 0;
      new;
      assert content[0..] == content;
    }

    method GetLine() returns (line: string)
      requires Valid() && !Eof()
      modifies this
      ensures Valid() && [line] + ToCome() == old(ToCome()) && at > old(at)
    {
      line := "";
      while at < |content| && content[at] != '\n'
        invariant old(at) <= at <= |content| && line == content[old(at)..at] && '\n' !in line
      {
        line := line + [content[at]];
        at := at + 1;
      }
      NextPiece(content, old(at), at);
      at := at + 1;
    }
  }

  // The piece of s from begin to the newline at `to`, or to the end.
  lemma NextPiece(s: string, begin: nat, to: nat)
    requires begin <= to <= |s| && '\n' !in s[begin..to] && (to < |s| ==> s[to] == '\n')
    ensures Settings.Lines(s[begin..]) == [s[begin..to]] + if to < |s| then Settings.Lines(s[to + 1..]) else []
  {
    if to < |s| {
      FirstLine(s[begin..to], s[to + 1..]);
      assert s[begin..] == s[begin..to] + "\n" + s[to + 1..];
    } else {
      LastLine(s[begin..]);
      assert s[begin..to] == s[begin..];
    }
  }

  lemma {:induction false} LastLine(line: string)
    requires '\n' !in line
    ensures Settings.Lines(line) == [line]
  {
    if line != "" {
      LastLine(line[1..]);
      assert [line[0]] + line[1..] == line;
    }
  }

  lemma OneWritten(out: string, data: Data, order: seq<string>, i: nat)
    requires i < |order| && forall k :: k in order ==> k in data
    ensures var line := LineOf(order[i], data[order[i]]);
      out + Written(data, order[i..])
          == (if data[order[i]] == "" then out else out + line) + Written(data, order[i + 1..])
  {
    assert order[i..][1..] == order[i + 1..];
    var rest := Written(data, order[i + 1..]);
    if data[order[i]] == "" {
      assert "" + rest == rest;
    } else {
      var line := LineOf(order[i], data[order[i]]);
      assert Written(data, order[i..]) == line + rest;
      assert out + (line + rest) == (out + line) + rest;
    }
  }

  class CSettings {
    const file: File
    var data: Data

    // What a new object makes of an existing file is what is read from it; a missing file is created.
    constructor (file: File, canOpen: bool)
      modifies file
      ensures this.file == file && file.content == old(file.content)
      ensures file.present == (old(file.present) || canOpen)
      ensures data == if old(file.present) && canOpen then Read(file.content) else map[]
    {
      this.file := file;
      data := map[];
      new;
      var read := ReadFromFile(canOpen);
      if !read && canOpen {
        file.present := true;
      }
    }

    method Contains(key: string) returns (resp: bool)
      ensures resp == (CStr(key) in NonEmpty(data))
    {
      resp := CStr(key) in data && data[CStr(key)] != "";
    }

    method SetValue(key: string, value: string, order: seq<string>, canOpen: bool) returns (ok: bool)
      requires Enumerates(order, data[CStr(key) := value])
      modifies this, file
      ensures data == old(data)[CStr(key) := value] && ok == (file.present && canOpen)
          && file.present == old(file.present)
      ensures file.content == if ok then Written(data, order) else old(file.content)
    {
      data := data[CStr(key) := value];
      ok := WriteToFile(order, canOpen);
    }

    // JsonObject.Remove may leave the label; the empty value keeps it out of the file all the same.
    method Remove(key: string, gone: bool, order: seq<string>, canOpen: bool) returns (status: bool)
      requires Enumerates(order, if gone then data - {CStr(key)} else data[CStr(key) := ""])
      modifies this, file
      ensures data == if gone then old(data) - {CStr(key)} else old(data)[CStr(key) := ""]
      ensures NonEmpty(data) == NonEmpty(old(data)) - {CStr(key)}
      ensures status == (file.present && canOpen) && file.present == old(file.present)
      ensures file.content == if status then Written(data, order) else old(file.content)
    {
      data := data[CStr(key) := ""];
      if gone {
        data := data - {CStr(key)};
        assert data == old(data) - {CStr(key)};
      }
      var there := Contains(key);
      if there {
        return false;
      }
      status := WriteToFile(order, canOpen);
    }

    method Print(order: seq<string>) returns (out: string)
      requires Enumerates(order, data)
      ensures out == Written(data, order)
    {
      out := "";
      var i := 0;
      assert order[0..] == order && "" + Written(data, order) == Written(data, order);
      while i < |order|
        invariant 0 <= i <= |order| && out + Written(data, order[i..]) == Written(data, order)
      {
        OneWritten(out, data, order, i);
        if data[order[i]] != "" {
          out := out + LineOf(order[i], data[order[i]]);
        }
        i := i + 1;
      }
      assert order[i..] == [] && out + "" == out;
    }

    method WriteToFile(order: seq<string>, canOpen: bool) returns (status: bool)
      requires Enumerates(order, data)
      modifies file
      ensures status == (file.present && canOpen) && file.present == old(file.present)
      ensures file.content == if status then Written(data, order) else old(file.content)
    {
      status := false;
      if file.present && canOpen {
        var out := Print(order);
        file.content := out;
        status := true;
      }
    }

    method ReadFromFile(canOpen: bool) returns (retStatus: bool)
      modifies `data
      ensures retStatus == (file.present && canOpen)
      ensures data == if retStatus then ReadLines(old(data), Settings.Lines(file.content)) else old(data)
    {
      retStatus := false;
      if !file.present {
        return;
      }
      if canOpen {
        var ifile := new LineReader(file.content);
        while !ifile.Eof()
          invariant ifile.Valid() && fresh(ifile) && (ifile.Eof() ==> retStatus)
          invariant ReadLines(data, ifile.ToCome()) == ReadLines(old(data), Settings.Lines(file.content))
          decreases |ifile.content| + 1 - ifile.at
        {
          ghost var toCome := ifile.ToCome();
          ghost var before := ifile.at;
          var content := ifile.GetLine();
          assert toCome[0] == content && toCome[1..] == ifile.ToCome();
          var pos := LastEquals(content);
          if pos.Some? {
            data := data[CStr(content[..pos.value]) := content[pos.value + 1..]];
          }
          retStatus := true;
        }
      }
    }
  }
}
