/**
 * The text transformation inside `clean_json_file` of main.py: the downloaded document holds
 * one JSON object per line; every line break becomes a comma and a line break, the last two
 * characters are dropped, and the result is wrapped in square brackets. Both steps read the
 * file back in text mode, so the text they work on has Python's universal newlines applied.
 *
 * As in module Duration, the example lemmas on longer literals take them through a parameter
 * fixed by `requires`, which keeps the verifier from unfolding every definition on them.
 */
module JsonRepair {

  /**
   * What a text-mode read with Python's default `newline=None` returns for a file holding
   * `text`: every "\r\n" and every lone '\r' comes back as '\n'.
   */
  function UniversalNewlines(text: string): (r: string)
    ensures '\r' !in r
    ensures |r| <= |text|
    decreases |text|
  {
    if text == [] then []
    else if text[0] == '\r' then
      "\n" + UniversalNewlines(if |text| > 1 && text[1] == '\n' then text[2..] else text[1..])
    else
      [text[0]] + UniversalNewlines(text[1..])
  }

  /** A text without '\r' passes a text-mode read unchanged. */
  lemma {:induction false} UniversalNewlinesIdentity(text: string)
    requires '\r' !in text
    ensures UniversalNewlines(text) == text
  {
    if text != [] {
      assert text[0] in text;
      assert '\r' !in text[1..] by {
        assert forall c :: c in text[1..] ==> c in text;
      }
      UniversalNewlinesIdentity(text[1..]);
    }
  }

  /**
   * `text.replace('\n', ',\n')`: no character is added but the commas, and every line break
   * of the result is preceded by a comma.
   */
  function ReplaceNewlines(text: string): (r: string)
    ensures forall c :: c in r ==> c in text || c == ','
    ensures forall i :: 0 <= i < |r| && r[i] == '\n' ==> 0 < i && r[i - 1] == ','
  {
    if text == [] then []
    else
      var head := if text[0] == '\n' then ",\n" else [text[0]];
      var rest := ReplaceNewlines(text[1..]);
      assert forall c :: c in rest ==> c in text || c == ',' by {
        assert forall c :: c in text[1..] ==> c in text;
      }
      assert forall i :: |head| <= i < |head| + |rest| ==> (head + rest)[i] == rest[i - |head|];
      head + rest
  }

  function CountNewlines(text: string): nat
  {
    if text == [] then 0 else (if text[0] == '\n' then 1 else 0) + CountNewlines(text[1..])
  }

  /** Python's `text[:-2]`: empty when the text is shorter than two characters. */
  function DropLastTwo(text: string): (r: string)
    ensures |text| >= 2 ==> text == r + text[|text| - 2..]
    ensures |text| < 2 ==> r == []
  {
    if |text| >= 2 then text[..|text| - 2] else []
  }

  /** Every line break grows by one character, the comma, and nothing else changes length. */
  lemma {:induction false} ReplaceNewlinesLength(text: string)
    ensures |ReplaceNewlines(text)| == |text| + CountNewlines(text)
  {
    if text != [] {
      ReplaceNewlinesLength(text[1..]);
    }
  }

  lemma {:induction false} ReplaceNewlinesAppend(a: string, b: string)
    ensures ReplaceNewlines(a + b) == ReplaceNewlines(a) + ReplaceNewlines(b)
  {
    if a != [] {
      assert (a + b)[1..] == a[1..] + b;
      ReplaceNewlinesAppend(a[1..], b);
    } else {
      assert a + b == b;
    }
  }

  /** A text without line breaks is left as it is. */
  lemma {:induction false} ReplaceNewlinesNone(text: string)
    requires '\n' !in text
    ensures ReplaceNewlines(text) == text
  {
    if text != [] {
      assert text[0] in text;
      assert forall c :: c in text[1..] ==> c in text;
      ReplaceNewlinesNone(text[1..]);
    }
  }

  /**
   * The repaired file: the download as the first read sees it, with every line break turned
   * into a comma and a line break, read back a second time, less its last two characters and
   * wrapped in brackets. It always opens with '[' and closes with ']', holds no '\r', and its
   * length is that of the first read plus one comma per line break, less the two dropped
   * characters (never below zero), plus the two brackets.
   */
  function CleanJson(download: string): (r: string)
    ensures |r| >= 2 && r[0] == '[' && r[|r| - 1] == ']'
    ensures '\r' !in r
    ensures var text := UniversalNewlines(download);
      |r| == (if |text| + CountNewlines(text) >= 2 then |text| + CountNewlines(text) - 2 else 0) + 2
  {
    var text := UniversalNewlines(download);
    var replaced := ReplaceNewlines(text);
    var reread := UniversalNewlines(replaced);
    ReplaceNewlinesLength(text);
    UniversalNewlinesIdentity(replaced);
    var kept := DropLastTwo(reread);
    assert '\r' !in kept by {
      assert forall c :: c in kept ==> c in reread;
    }
    "[" + kept + "]"
  }

  /** The lines of a document, each followed by the line terminator `end`. */
  function Unlines(lines: seq<string>, end: string): string
  {
    if lines == [] then [] else lines[0] + end + Unlines(lines[1..], end)
  }

  /** The lines with the separator between consecutive ones. */
  function Join(lines: seq<string>, sep: string): string
    requires lines != []
  {
    if |lines| == 1 then lines[0] else lines[0] + sep + Join(lines[1..], sep)
  }

  /** One of the three line terminators that universal newlines recognise. */
  predicate IsLineEnd(end: string)
  {
    end == "\n" || end == "\r\n" || end == "\r"
  }

  /** Text without '\r' passes a text-mode read unchanged, whatever follows it. */
  lemma {:induction false} UniversalNewlinesPlain(a: string, b: string)
    requires '\r' !in a
    ensures UniversalNewlines(a + b) == a + UniversalNewlines(b)
  {
    if a == [] {
      assert a + b == b;
    } else {
      var t := a + b;
      var u := a[1..];
      assert a[0] in a;
      assert t[1..] == u + b;
      assert '\r' !in u by {
        assert forall c :: c in u ==> c in a;
      }
      UniversalNewlinesPlain(u, b);
      assert UniversalNewlines(t) == [a[0]] + (u + UniversalNewlines(b));
      assert [a[0]] + (u + UniversalNewlines(b)) == a + UniversalNewlines(b);
    }
  }

  /** Lines without '\n' ended by "\r\n" or '\r' do not start with '\n'. */
  lemma UnlinesStart(lines: seq<string>, end: string)
    requires end == "\r\n" || end == "\r"
    requires forall i :: 0 <= i < |lines| ==> '\n' !in lines[i]
    ensures Unlines(lines, end) != [] ==> Unlines(lines, end)[0] != '\n'
  {
    if lines != [] {
      if lines[0] != [] {
        assert Unlines(lines, end)[0] == lines[0][0] && lines[0][0] in lines[0];
      } else {
        assert Unlines(lines, end)[0] == '\r';
      }
    }
  }

  /** A line terminator reads back as one '\n', unless a lone '\r' is followed by '\n'. */
  lemma UniversalNewlinesLineEnd(end: string, rest: string)
    requires IsLineEnd(end)
    requires end == "\r" && rest != [] ==> rest[0] != '\n'
    ensures UniversalNewlines(end + rest) == "\n" + UniversalNewlines(rest)
  {
    var t := end + rest;
    if end == "\r\n" {
      assert t[2..] == rest;
    } else {
      assert t[1..] == rest;
    }
  }

  /** Lines ended by "\n", "\r\n" or '\r' all read back as the same lines ended by "\n". */
  lemma {:induction false} UniversalNewlinesUnlines(lines: seq<string>, end: string)
    requires IsLineEnd(end)
    requires forall i :: 0 <= i < |lines| ==> '\n' !in lines[i] && '\r' !in lines[i]
    ensures UniversalNewlines(Unlines(lines, end)) == Unlines(lines, "\n")
  {
    if lines != [] {
      var tail := lines[1..];
      var rest := Unlines(tail, end);
      assert Unlines(lines, end) == lines[0] + (end + rest);
      UniversalNewlinesPlain(lines[0], end + rest);
      assert forall i :: 0 <= i < |tail| ==> tail[i] == lines[i + 1];
      UniversalNewlinesUnlines(tail, end);
      if end != "\n" {
        UnlinesStart(tail, end);
      }
      UniversalNewlinesLineEnd(end, rest);
      assert Unlines(lines, "\n") == lines[0] + ("\n" + Unlines(tail, "\n"));
    }
  }

  lemma {:induction false} ReplaceNewlinesUnlines(lines: seq<string>)
    requires lines != []
    requires forall i :: 0 <= i < |lines| ==> '\n' !in lines[i]
    ensures ReplaceNewlines(Unlines(lines, "\n")) == Join(lines, ",\n") + ",\n"
  {
    var rest := Unlines(lines[1..], "\n");
    assert Unlines(lines, "\n") == lines[0] + ("\n" + rest);
    ReplaceNewlinesAppend(lines[0], "\n" + rest);
    ReplaceNewlinesNone(lines[0]);
    assert ReplaceNewlines("\n" + rest) == ",\n" + ReplaceNewlines(rest) by {
      assert ("\n" + rest)[1..] == rest;
    }
    if |lines| > 1 {
      ReplaceNewlinesUnlines(lines[1..]);
      assert Join(lines, ",\n") == lines[0] + ",\n" + Join(lines[1..], ",\n");
    } else {
      assert rest == [];
    }
  }

  /**
   * A document of one or more lines, each ending in the same line terminator ("\n", "\r\n" or
   * '\r'), becomes the JSON array of those lines, in order, separated by a comma and a line
   * break.
   */
  lemma CleanJsonLines(lines: seq<string>, end: string)
    requires lines != [] && IsLineEnd(end)
    requires forall i :: 0 <= i < |lines| ==> '\n' !in lines[i] && '\r' !in lines[i]
    ensures CleanJson(Unlines(lines, end)) == "[" + Join(lines, ",\n") + "]"
  {
    UniversalNewlinesUnlines(lines, end);
    var text := UniversalNewlines(Unlines(lines, end));
    assert text == Unlines(lines, "\n");
    var replaced := ReplaceNewlines(text);
    assert '\r' !in replaced;
    UniversalNewlinesIdentity(replaced);
    ReplaceNewlinesUnlines(lines);
    assert DropLastTwo(replaced) == Join(lines, ",\n");
    assert CleanJson(Unlines(lines, end)) == "[" + DropLastTwo(replaced) + "]";
  }

  /** Objects ended by a lone '\r' come out as for "\n". */
  lemma ExampleCarriageReturns(text: string)
    requires text == "{}\r{}\r"
    ensures CleanJson(text) == "[{},\n{}]"
  {
    var two := ["{}", "{}"];
    assert Unlines(two[1..], "\r") == "{}\r";
    assert Unlines(two, "\r") == text;
    CleanJsonLines(two, "\r");
    assert Join(two, ",\n") == "{},\n{}";
  }

  /** An object ended by "\r\n" comes out as for "\n". */
  lemma ExampleCrLf(text: string)
    requires text == "{}\r\n"
    ensures CleanJson(text) == "[{}]"
  {
    var one := ["{}"];
    assert Unlines(one, "\r\n") == text;
    CleanJsonLines(one, "\r\n");
  }

  /**
   * A document with no line break of any kind, such as a single object sent without a final
   * line break, loses its own last two characters: "{}" comes out as the empty array.
   */
  lemma CleanJsonWithoutNewline(text: string)
    requires '\n' !in text && '\r' !in text
    ensures CleanJson(text) == "[" + DropLastTwo(text) + "]"
  {
    UniversalNewlinesIdentity(text);
    ReplaceNewlinesNone(text);
  }

  lemma ExampleSingleObjectWithoutNewline(text: string)
    requires text == "{}"
    ensures CleanJson(text) == "[]"
  {
    assert '\n' !in text && '\r' !in text;
    CleanJsonWithoutNewline(text);
  }

  /** An empty download becomes the empty array. */
  lemma CleanJsonEmpty()
    ensures CleanJson("") == "[]"
  {
  }
}
