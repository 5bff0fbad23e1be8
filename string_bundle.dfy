/** The localised message table (libs/string_bundle.py): a properties file of
    `key=value` lines read into one id-to-message map. */
module StringBundle {

  const Separator: char := '='

  /** The characters Python's `str.strip()` removes. */
  predicate IsSpace(c: char)
  {
    c == ' ' || ('\t' <= c <= '\r') || (28 as char <= c <= 31 as char) || c == 133 as char || c == 160 as char
    || c == 5760 as char || (8192 as char <= c <= 8202 as char) || c == 8232 as char || c == 8233 as char
    || c == 8239 as char || c == 8287 as char || c == 12288 as char
  }

  predicate IsQuote(c: char)
  {
    c == '"'
  }

  /** `s` without its leading white space. */
  function LStrip(s: string): (r: string)
    ensures |r| <= |s|
  {
    if s != [] && IsSpace(s[0]) then LStrip(s[1..]) else s
  }

  /** `s` without its trailing white space. */
  function RStrip(s: string): (r: string)
    ensures |r| <= |s|
  {
    if s != [] && IsSpace(s[|s| - 1]) then RStrip(s[..|s| - 1]) else s
  }

  /** Python's `s.strip()`. */
  function Strip(s: string): string
  {
    RStrip(LStrip(s))
  }

  /** Python's `s.strip('"')`. */
  function StripQuotes(s: string): (r: string)
    ensures |r| <= |s|
  {
    if s != [] && IsQuote(s[0]) then StripQuotes(s[1..])
    else if s != [] && IsQuote(s[|s| - 1]) then StripQuotes(s[..|s| - 1])
    else s
  }

  /** Python's `s.split(sep)`: the pieces between the separators, at least one. */
  function Split(s: string, sep: char): (parts: seq<string>)
    ensures |parts| >= 1
  {
    if s == [] then [""]
    else
      var rest := Split(s[1..], sep);
      if s[0] == sep then [""] + rest else [[s[0]] + rest[0]] + rest[1..]
  }

  /** Python's `sep.join(parts)`. */
  function Join(sep: char, parts: seq<string>): string
  {
    if parts == [] then ""
    else if |parts| == 1 then parts[0]
    else parts[0] + [sep] + Join(sep, parts[1..])
  }

  /** Position of the first `c` in `s`, or -1. */
  function IndexOf(s: string, c: char): (k: int)
    ensures -1 <= k < |s|
    ensures k == -1 <==> c !in s
    ensures k != -1 ==> s[k] == c && c !in s[..k]
  {
    if s == [] then -1
    else if s[0] == c then 0
    else
      var k := IndexOf(s[1..], c);
      assert s[1..][..k + 1] == s[1..k + 2] by { }
      if k == -1 then -1 else k + 1
  }

  /** The line parser of `__load`: the stripped text before the first `=` is
      the key; the other pieces joined back with `=`, stripped of white space
      and then of double quotes, are the value. */
  function ParseLine(line: string): (string, string)
  {
    var keyValue := Split(line, Separator);
    (Strip(keyValue[0]), StripQuotes(Strip(Join(Separator, keyValue[1..]))))
  }

  lemma {:induction false} SplitWithout(s: string, sep: char)
    requires sep !in s
    ensures Split(s, sep) == [s]
  {
    if s != [] {
      assert sep !in s[1..];
      SplitWithout(s[1..], sep);
      assert [s[0]] + s[1..] == s;
      assert Split(s, sep) == [[s[0]] + s[1..]] + [s[1..]][1..];
    }
  }

  lemma {:induction false} SplitAtFirst(s: string, sep: char)
    requires sep in s
    ensures Split(s, sep) == [s[..IndexOf(s, sep)]] + Split(s[IndexOf(s, sep) + 1..], sep)
  {
    if s[0] != sep {
      SplitAtFirst(s[1..], sep);
      assert s[1..][IndexOf(s[1..], sep) + 1..] == s[IndexOf(s, sep) + 1..];
      assert [s[0]] + s[1..][..IndexOf(s[1..], sep)] == s[..IndexOf(s, sep)];
    }
  }

  /** Splitting and joining with the same separator gives the text back. */
  lemma {:induction false} JoinSplit(s: string, sep: char)
    ensures Join(sep, Split(s, sep)) == s
    decreases |s|
  {
    if sep in s {
      var k := IndexOf(s, sep);
      SplitAtFirst(s, sep);
      JoinSplit(s[k + 1..], sep);
      assert s == s[..k] + [sep] + s[k + 1..];
    } else {
      SplitWithout(s, sep);
    }
  }

  /** Each line is cut at its FIRST `=`: its key is the stripped text before it,
      its value the text after it (later `=` kept) stripped of white space and
      then of quotes; a line without `=` is all key and has an empty value. */
  lemma ParseLineCutsAtFirstSeparator(line: string)
    ensures var k := IndexOf(line, Separator);
            ParseLine(line) ==
              if k == -1 then (Strip(line), "")
              else (Strip(line[..k]), StripQuotes(Strip(line[k + 1..])))
  {
    var k := IndexOf(line, Separator);
    if k == -1 {
      SplitWithout(line, Separator);
      assert Join(Separator, []) == "";
    } else {
      SplitAtFirst(line, Separator);
      JoinSplit(line[k + 1..], Separator);
    }
  }

  /** The map after reading `lines` into `m`, one assignment per line in order. */
  function Loaded(m: map<string, string>, lines: seq<string>): map<string, string>
  {
    if lines == [] then m
    else
      var kv := ParseLine(lines[|lines| - 1]);
      Loaded(m, lines[..|lines| - 1])[kv.0 := kv.1]
  }

  /** A later line with the same key overwrites an earlier one: the value kept
      for a key is that of the last line carrying it. */
  lemma {:induction false} LoadedLastWins(m: map<string, string>, lines: seq<string>, i: nat)
    requires i < |lines|
    requires forall j :: i < j < |lines| ==> ParseLine(lines[j]).0 != ParseLine(lines[i]).0
    ensures ParseLine(lines[i]).0 in Loaded(m, lines)
    ensures Loaded(m, lines)[ParseLine(lines[i]).0] == ParseLine(lines[i]).1
  {
    if i < |lines| - 1 {
      var init := lines[..|lines| - 1];
      assert init[i] == lines[i];
      LoadedLastWins(m, init, i);
    }
  }

  /** A key no line carries keeps its earlier message, or stays absent. */
  lemma {:induction false} LoadedKeepsOthers(m: map<string, string>, lines: seq<string>, key: string)
    requires forall j :: 0 <= j < |lines| ==> ParseLine(lines[j]).0 != key
    ensures key in Loaded(m, lines) <==> key in m
    ensures key in m ==> Loaded(m, lines)[key] == m[key]
  {
    if lines != [] {
      LoadedKeepsOthers(m, lines[..|lines| - 1], key);
    }
  }

  /** The properties file: absent, or present with its lines (without terminators). */
  datatype PropertiesFile = Missing | Present(lines: seq<string>)

  class StringBundle {
    /** The id-to-message map; the source keeps it at class level. */
    var idsToMessages: map<string, string>

    constructor (file: PropertiesFile)
      ensures idsToMessages == (if file.Missing? then map[] else Loaded(map[], file.lines))
    {
      idsToMessages := map[];
      new;
      Load(file);
    }

    /** The message of `stringId`, which must be present. */
    function GetString(stringId: string): (message: string)
      reads this
      requires stringId in idsToMessages
      ensures message in idsToMessages.Values
    {
      idsToMessages[stringId]
    }

    /** Reads every line of the file into the map; a missing file changes nothing. */
    method Load(file: PropertiesFile)
      modifies this
      ensures idsToMessages == (if file.Missing? then old(idsToMessages) else Loaded(old(idsToMessages), file.lines))
    {
      if file.Missing? {
        return;
      }
      var lines := file.lines;
      var i := 0;
      while i < |lines|
        invariant 0 <= i <= |lines|
        invariant idsToMessages == Loaded(old(idsToMessages), lines[..i])
      {
        assert lines[..i + 1][..i] == lines[..i];
        var kv := ParseLine(lines[i]);
        idsToMessages := idsToMessages[kv.0 := kv.1];
        i := i + 1;
      }
      assert lines[..i] == lines;
    }
  }
}
