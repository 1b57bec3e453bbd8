/**
 * The text handling of `get_doctor_specialties_from_gemini` (`find_doctor.py`):
 * the reply is stripped, the code fences "```json" and "```" (each with the
 * whitespace that follows it) are removed, and the JSON text is taken as the
 * slice from the first `{` to the last `}`, inclusive.
 */
module GeminiReply {
  import opened Wrappers
  import opened Text

  const JsonFence: string := "```json"
  const Fence: string := "```"

  /**
   * `re.sub(tag + r'\s*', '', t)`: scanning from the left, every occurrence
   * of `tag` is dropped together with the whitespace run after it.
   */
  function RemoveAll(t: string, tag: string): (r: string)
    requires tag != []
    ensures |r| <= |t|
    decreases |t|
  {
    if tag <= t then RemoveAll(TrimStart(t[|tag|..]), tag)
    else if t == [] then []
    else [t[0]] + RemoveAll(t[1..], tag)
  }

  /** The reply text once stripped and cleared of fences. */
  function CleanReply(text: string): string {
    Trim(RemoveAll(RemoveAll(Trim(text), JsonFence), Fence))
  }

  /** `t[t.find('{'):t.rfind('}') + 1]`, or `None` when either brace is missing. */
  function BraceSlice(t: string): Option<string> {
    var start := FindFirst(t, '{');
    var end := FindLast(t, '}');
    if start == -1 || end == -1 then None
    else if end < start then Some("")
    else Some(t[start..end + 1])
  }

  /** The JSON text the service hands to `json.loads`. */
  function ExtractJson(text: string): Option<string> {
    BraceSlice(CleanReply(text))
  }

  /**
   * The slice fails exactly when a brace is missing; otherwise it is empty
   * (the last `}` comes before the first `{`) or it runs from the first `{`
   * to the last `}` of the text, with no `{` before it and no `}` after it.
   */
  lemma BraceSliceMeaning(t: string)
    ensures BraceSlice(t).None? <==> '{' !in t || '}' !in t
    ensures BraceSlice(t).Some? && BraceSlice(t).value != [] ==>
      exists i :: OccursAt(BraceSlice(t).value, t, i)
        && '{' !in t[..i] && '}' !in t[i + |BraceSlice(t).value|..]
        && BraceSlice(t).value[0] == '{' && BraceSlice(t).value[|BraceSlice(t).value| - 1] == '}'
  {
    if BraceSlice(t).Some? && BraceSlice(t).value != [] {
      var start := FindFirst(t, '{');
      var end := FindLast(t, '}');
      assert OccursAt(BraceSlice(t).value, t, start);
    }
  }

  lemma {:induction false} FindFirstAfter(a: string, b: string, c: char)
    requires c !in a
    ensures FindFirst(a + b, c) == if c in b then |a| + FindFirst(b, c) else -1
  {
    if a != [] {
      assert (a + b)[1..] == a[1..] + b;
      FindFirstAfter(a[1..], b, c);
    } else {
      assert a + b == b;
    }
  }

  lemma {:induction false} FindLastBefore(a: string, b: string, c: char)
    requires c !in b
    ensures FindLast(a + b, c) == FindLast(a, c)
  {
    if b != [] {
      assert (a + b)[..|a + b| - 1] == a + b[..|b| - 1];
      FindLastBefore(a, b[..|b| - 1], c);
    } else {
      assert a + b == a;
    }
  }

  /**
   * Prose around a JSON object is cut away: with no `{` before it and no `}`
   * after it, the slice is exactly the object's text.
   */
  lemma BraceSliceOf(before: string, json: string, after: string)
    requires |json| >= 2 && json[0] == '{' && json[|json| - 1] == '}'
    requires '{' !in before && '}' !in after
    ensures BraceSlice(before + json + after) == Some(json)
  {
    var t := before + json + after;
    assert t == before + (json + after);
    FindFirstAfter(before, json + after, '{');
    assert (json + after)[0] == '{';
    FindLastBefore(before + json, after, '}');
    assert (before + json)[|before + json| - 1] == '}';
    assert t[|before|..|before| + |json|] == json;
  }

  /** Text in which the tag cannot start is copied through unchanged. */
  lemma {:induction false} RemoveAllSkips(s: string, rest: string, tag: string)
    requires tag != [] && tag[0] !in s
    ensures RemoveAll(s + rest, tag) == s + RemoveAll(rest, tag)
  {
    if s != [] {
      var t := s + rest;
      assert t[0] == s[0] && t[1..] == s[1..] + rest;
      assert !(tag <= t);
      calc {
        RemoveAll(t, tag);
        [t[0]] + RemoveAll(t[1..], tag);
        [s[0]] + RemoveAll(s[1..] + rest, tag);
        { RemoveAllSkips(s[1..], rest, tag); }
        [s[0]] + (s[1..] + RemoveAll(rest, tag));
        { assert [s[0]] + s[1..] == s; }
        s + RemoveAll(rest, tag);
      }
    } else {
      assert s + rest == rest;
    }
  }

  /**
   * A reply wrapped in a "```json" fence gives back the JSON text it wraps,
   * when that text is free of backquotes and surrounding whitespace.
   */
  lemma FencedReply(json: string)
    requires |json| >= 2 && json[0] == '{' && json[|json| - 1] == '}'
    requires '`' !in json
    ensures ExtractJson(JsonFence + "\n" + json + "\n" + Fence) == Some(json)
  {
    FencedReplyWith(JsonFence, Fence, json);
  }

  /** The same for any pair of fences where the closing one is a proper prefix of the opening one. */
  lemma FencedReplyWith(open: string, close: string, json: string)
    requires |json| >= 2 && json[0] == '{' && json[|json| - 1] == '}'
    requires |close| < |open| && close != [] && close <= open
    requires !IsSpace(open[0]) && open[0] != '\n' && open[0] !in json
    requires !IsSpace(close[|close| - 1])
    ensures BraceSlice(Trim(RemoveAll(RemoveAll(Trim(open + "\n" + json + "\n" + close), open), close))) == Some(json)
  {
    assert close[0] == open[0];
    ClosingRemoved(close, json);
    TrimmedAfterNewline(json);
    BraceSliceWhole(json);
    OpeningRemoved(open, close, json);
    var text := open + "\n" + json + "\n" + close;
    assert IsTrimmed(text);
    TrimmedFixed(text);
  }

  lemma TrimmedAfterNewline(json: string)
    requires json != [] && !IsSpace(json[0]) && !IsSpace(json[|json| - 1])
    ensures Trim(json + "\n") == json
  {
    TrimEndOneSpace(json, '\n');
    assert TrimStart(json + "\n") == json + "\n";
  }

  lemma BraceSliceWhole(json: string)
    requires |json| >= 2 && json[0] == '{' && json[|json| - 1] == '}'
    ensures BraceSlice(json) == Some(json)
  {
    assert json == [] + json + [];
    BraceSliceOf([], json, []);
  }

  lemma OpeningRemoved(open: string, close: string, json: string)
    requires |json| >= 1 && !IsSpace(json[0])
    requires |close| < |open| && close != [] && open[0] != '\n' && open[0] !in json
    ensures RemoveAll(open + "\n" + json + "\n" + close, open) == json + "\n" + close
  {
    var line := json + "\n";
    var body := line + close;
    var rest := "\n" + body;
    Regroup(open, "\n", json, "\n", close);
    assert open[0] !in line;
    calc {
      RemoveAll(open + rest, open);
      { RemoveAllAtTag(open, rest); }
      RemoveAll(TrimStart(rest), open);
      { TrimStartOneSpace('\n', body); }
      RemoveAll(line + close, open);
      { RemoveAllSkips(line, close, open); }
      line + RemoveAll(close, open);
      { RemoveAllShort(close, open); }
      line + close;
    }
  }

  lemma Regroup(a: string, b: string, c: string, d: string, e: string)
    ensures a + b + c + d + e == a + (b + ((c + d) + e))
  {
  }

  lemma ClosingRemoved(close: string, json: string)
    requires close != [] && close[0] != '\n' && close[0] !in json
    ensures RemoveAll(json + "\n" + close, close) == json + "\n"
  {
    var s := json + "\n";
    assert close[0] !in s;
    RemoveAllSkips(s, close, close);
    RemoveAllSelf(close);
    assert s + [] == s;
  }

  lemma RemoveAllSelf(tag: string)
    requires tag != []
    ensures RemoveAll(tag, tag) == []
  {
    var rest := tag[|tag|..];
    assert rest == [];
    assert TrimStart(rest) == [];
    assert RemoveAll([], tag) == [];
  }

  lemma TrimEndOneSpace(s: string, c: char)
    requires IsSpace(c) && s != [] && !IsSpace(s[|s| - 1])
    ensures TrimEnd(s + [c]) == s
  {
    assert (s + [c])[..|s|] == s;
  }

  /** An occurrence of the tag is dropped with the whitespace after it. */
  lemma RemoveAllAtTag(tag: string, rest: string)
    requires tag != []
    ensures RemoveAll(tag + rest, tag) == RemoveAll(TrimStart(rest), tag)
  {
    assert tag <= tag + rest;
    assert (tag + rest)[|tag|..] == rest;
  }

  lemma TrimStartOneSpace(c: char, s: string)
    requires IsSpace(c) && s != [] && !IsSpace(s[0])
    ensures TrimStart([c] + s) == s
  {
    assert ([c] + s)[1..] == s;
  }

  /** Text shorter than the tag cannot contain it. */
  lemma {:induction false} RemoveAllShort(t: string, tag: string)
    requires tag != [] && |t| < |tag|
    ensures RemoveAll(t, tag) == t
  {
    if t != [] {
      RemoveAllShort(t[1..], tag);
    }
  }
}
