/** Text of `key=value` lines, as the tunnel's configuration is handed over: lines, and the cut at the first `=`. */
module TunnelText {
  import opened Wrappers

  /** The text between the line breaks. */
  function Lines(text: string): (lines: seq<string>)
    ensures lines != []
  {
    if text == "" then [""]
    else
      var rest := Lines(text[1..]);
      if text[0] == '\n' then [""] + rest else [[text[0]] + rest[0]] + rest[1..]
  }

  /** A carriage return before the line break belongs to the break. */
  function Chomp(line: string): string {
    if line != "" && line[|line| - 1] == '\r' then line[..|line| - 1] else line
  }

  function Cut(line: string): Option<(string, string)> {
    if line == "" then None
    else if line[0] == '=' then Some(("", line[1..]))
    else
      match Cut(line[1..])
      case None => None
      case Some((key, value)) => Some(([line[0]] + key, value))
  }

  function KeyValue(key: string, value: string): string {
    key + ("=" + value)
  }

  lemma {:induction false} LinesUnbroken(text: string)
    requires '\n' !in text
    ensures Lines(text) == [text]
  {
    if text != "" {
      LinesUnbroken(text[1..]);
      assert [text[0]] + text[1..] == text;
    }
  }

  lemma {:induction false} LinesBreak(first: string, rest: string)
    requires '\n' !in first
    ensures Lines(first + ("\n" + rest)) == [first] + Lines(rest)
  {
    if first == "" {
      assert first + ("\n" + rest) == "\n" + rest;
      assert ("\n" + rest)[1..] == rest;
    } else {
      LinesBreak(first[1..], rest);
      assert (first + ("\n" + rest))[1..] == first[1..] + ("\n" + rest);
      FirstLine(first, rest);
    }
  }

  lemma FirstLine(first: string, rest: string)
    requires first != "" && '\n' !in first
    requires Lines(first[1..] + ("\n" + rest)) == [first[1..]] + Lines(rest)
    ensures [[first[0]] + ([first[1..]] + Lines(rest))[0]] + ([first[1..]] + Lines(rest))[1..] == [first] + Lines(rest)
  {
    assert [first[0]] + first[1..] == first;
  }

  lemma {:induction false} CutKeyValue(key: string, value: string)
    requires '=' !in key
    ensures Cut(KeyValue(key, value)) == Some((key, value))
  {
    if key == "" {
      assert KeyValue(key, value) == "=" + value;
      assert ("=" + value)[1..] == value;
    } else {
      CutKeyValue(key[1..], value);
      assert KeyValue(key, value)[1..] == KeyValue(key[1..], value);
      assert [key[0]] + key[1..] == key;
    }
  }

  /** A carriage return at the end of the line is one at the end of the value. */
  lemma ChompKeyValue(key: string, value: string)
    ensures Chomp(KeyValue(key, value)) == KeyValue(key, Chomp(value))
  {
    var line := KeyValue(key, value);
    if value != "" {
      assert line[|line| - 1] == value[|value| - 1];
      assert line[..|line| - 1] == KeyValue(key, value[..|value| - 1]);
    } else {
      assert line[|line| - 1] == '=';
    }
  }
}
