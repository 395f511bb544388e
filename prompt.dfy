/** Building the generation prompt (get_prompt): the template text followed by the
    past names joined with ",". */
module Prompt {
  import opened Wrappers

  /** Python's `",".join(names)`: the text starts with the first name. */
  function Join(names: seq<string>): (r: string)
    ensures |names| > 0 ==> names[0] <= r
  {
    if |names| == 0 then ""
    else if |names| == 1 then names[0]
    else names[0] + "," + Join(names[1..])
  }

  /** Python's `s.split(",")`: always at least one piece. */
  function Split(s: string): (r: seq<string>)
    ensures |r| >= 1
  {
    if s == [] then [""]
    else if s[0] == ',' then [""] + Split(s[1..])
    else var rest := Split(s[1..]); [[s[0]] + rest[0]] + rest[1..]
  }

  function TotalLength(names: seq<string>): nat {
    if names == [] then 0 else |names[0]| + TotalLength(names[1..])
  }

  /** Joining loses nothing and adds only the separators: one "," between each two
      consecutive names, none at either end. */
  lemma {:induction false} JoinLength(names: seq<string>)
    requires names != []
    ensures |Join(names)| == TotalLength(names) + |names| - 1
  {
    if |names| > 1 {
      JoinLength(names[1..]);
    }
  }

  /** Appending a name to the history appends "," and that name to the joined text. */
  lemma {:induction false} JoinSnoc(names: seq<string>, n: string)
    requires names != []
    ensures Join(names + [n]) == Join(names) + "," + n
  {
    if |names| == 1 {
      assert names + [n] == [names[0], n];
    } else {
      assert (names + [n])[1..] == names[1..] + [n];
      JoinSnoc(names[1..], n);
    }
  }

  /** Splitting text that starts with a comma-free piece `a`. */
  lemma {:induction false} SplitPrefix(a: string, t: string)
    requires ',' !in a
    ensures Split(a + t) == [a + Split(t)[0]] + Split(t)[1..]
  {
    if a != [] {
      assert (a + t)[1..] == a[1..] + t;
      SplitPrefix(a[1..], t);
      assert [a[0]] + (a[1..] + Split(t)[0]) == a + Split(t)[0];
    } else {
      assert a + t == t;
      assert a + Split(t)[0] == Split(t)[0];
      assert Split(t) == [Split(t)[0]] + Split(t)[1..];
    }
  }

  /** Joining the pieces of a split gives back the text: `",".join(s.split(",")) == s`. */
  lemma {:induction false} JoinSplit(s: string)
    ensures Join(Split(s)) == s
  {
    if s == [] {
    } else if s[0] == ',' {
      JoinSplit(s[1..]);
      assert ([""] + Split(s[1..]))[1..] == Split(s[1..]);
    } else {
      var rest := Split(s[1..]);
      JoinSplit(s[1..]);
      var r := [[s[0]] + rest[0]] + rest[1..];
      if |rest| == 1 {
        assert s == [s[0]] + s[1..];
      } else {
        assert r[1..] == rest[1..];
        assert Join(rest) == rest[0] + "," + Join(rest[1..]);
        assert s == [s[0]] + s[1..];
      }
    }
  }

  /** When no name holds a comma, the names can be read back from the joined text in
      their original order: nothing is reordered, merged, dropped or deduplicated. */
  lemma {:induction false} SplitJoin(names: seq<string>)
    requires names != []
    requires forall k :: 0 <= k < |names| ==> ',' !in names[k]
    ensures Split(Join(names)) == names
  {
    if |names| == 1 {
      SplitPrefix(names[0], "");
      assert names[0] + "" == names[0];
    } else {
      var tail := Join(names[1..]);
      SplitJoin(names[1..]);
      assert ("," + tail)[1..] == tail;
      assert Split("," + tail) == [""] + names[1..];
      SplitPrefix(names[0], "," + tail);
      assert Join(names) == names[0] + ("," + tail);
      assert names[0] + "" == names[0];
      assert names == [names[0]] + names[1..];
    }
  }

  function TemplateMissing(templateFile: string): string {
    "File '" + templateFile + "' not found."
  }

  /** get_prompt with the template file's contents given as `template`; None stands
      for a template file that does not exist. */
  function GetPrompt(pastNames: seq<string>, templateFile: string, template: Option<string>): (r: Result<string>)
    ensures r.Err? <==> template.None?
    ensures r.Err? ==> r.error == TemplateMissing(templateFile)
    ensures r.Ok? ==>
      StartsWith(r.value, template.value) && r.value[|template.value|..] == Join(pastNames)
  {
    match template
    case None => Err(TemplateMissing(templateFile))
    case Some(text) => Ok(text + Join(pastNames))
  }

  /** With no history the prompt is the template, unchanged. */
  lemma EmptyHistory(templateFile: string, text: string)
    ensures GetPrompt([], templateFile, Some(text)) == Ok(text)
  {
    assert text + "" == text;
  }

  /** get_prompt with history ["a","b"] and template "T:" gives "T:a,b". */
  lemma TwoNames()
    ensures GetPrompt(["a", "b"], "prompt.txt", Some("T:")) == Ok("T:a,b")
  {
    assert ["a", "b"][1..] == ["b"];
    assert Join(["a", "b"]) == "a,b";
    assert "T:" + "a,b" == "T:a,b";
  }
}
