/** `BotHandler.get_response` of pact_backend/services/response.py: the
    prompt is put into a template with `str.format`, sent to the language
    model, and the reply is returned with its newlines and double quotes
    removed. The model call is a parameter. */
module BotResponse {
  import opened PyBuiltins

  /** The template used when no `structure` is given. */
  const DefaultTemplate := "Answer the following question: {}"

  /** The template a `structure` falls back to when it has none. */
  const BareTemplate := "{}"

  /** `structure.get("prompt_template", "{}")`, with `structure` defaulted. */
  function TemplateOf(structure: Option<map<string, string>>): (t: string)
    ensures structure.None? ==> t == DefaultTemplate
    ensures structure.Some? && "prompt_template" !in structure.value ==> t == BareTemplate
    ensures structure.Some? && "prompt_template" in structure.value ==> t == structure.value["prompt_template"]
  {
    match structure
    case None => DefaultTemplate
    case Some(s) => if "prompt_template" in s then s["prompt_template"] else BareTemplate
  }

  /** How field numbering has gone so far in one `format` call. */
  datatype Numbering = Unused | Automatic | Manual

  /** `template.format(arg)` with one positional argument, from the
      numbering state reached so far. Literal text is copied, `{{` and `}}`
      stand for single braces, `{}` and `{0}` for the argument. A second
      `{}` (there is no argument 1), mixing `{}` with `{0}`, a lone brace
      and every other replacement field raise (None). */
  function FormatFrom(t: string, arg: string, numbering: Numbering): Option<string>
    decreases |t|
  {
    if t == [] then Some([])
    else if t[0] == '{' then
      if |t| >= 2 && t[1] == '{' then Prepend("{", FormatFrom(t[2..], arg, numbering))
      else if |t| >= 2 && t[1] == '}' then
        if numbering != Unused then None
        else Prepend(arg, FormatFrom(t[2..], arg, Automatic))
      else if |t| >= 3 && t[1] == '0' && t[2] == '}' then
        if numbering == Automatic then None
        else Prepend(arg, FormatFrom(t[3..], arg, Manual))
      else None
    else if t[0] == '}' then
      if |t| >= 2 && t[1] == '}' then Prepend("}", FormatFrom(t[2..], arg, numbering))
      else None
    else Prepend([t[0]], FormatFrom(t[1..], arg, numbering))
  }

  /** `s` in front of a formatted remainder, if there is one. */
  function Prepend(s: string, r: Option<string>): (q: Option<string>)
    ensures q.Some? <==> r.Some?
    ensures q.Some? ==> q.value == s + r.value
  {
    match r
    case None => None
    case Some(x) => Some(s + x)
  }

  /** `template.format(arg)`. */
  function Format(template: string, arg: string): Option<string> {
    FormatFrom(template, arg, Unused)
  }

  /** A template holding the text `s` literally: every brace doubled. */
  function Escape(s: string): (e: string)
    ensures |e| >= |s|
  {
    if s == [] then []
    else if s[0] == '{' || s[0] == '}' then [s[0], s[0]] + Escape(s[1..])
    else [s[0]] + Escape(s[1..])
  }

  /** A character other than a brace is copied. */
  lemma FormatCopies(c: char, rest: string, arg: string, numbering: Numbering)
    requires c != '{' && c != '}'
    ensures FormatFrom([c] + rest, arg, numbering) == Prepend([c], FormatFrom(rest, arg, numbering))
  {
    assert ([c] + rest)[1..] == rest;
  }

  /** A doubled brace stands for one brace. */
  lemma FormatUndoubles(c: char, rest: string, arg: string, numbering: Numbering)
    requires c == '{' || c == '}'
    ensures FormatFrom([c, c] + rest, arg, numbering) == Prepend([c], FormatFrom(rest, arg, numbering))
  {
    assert ([c, c] + rest)[2..] == rest;
  }

  /** The first character of an escaped text formats back to itself. */
  lemma FormatEscapedHead(s: string, tail: string, arg: string)
    requires s != []
    ensures FormatFrom(Escape(s) + tail, arg, Unused) == Prepend([s[0]], FormatFrom(Escape(s[1..]) + tail, arg, Unused))
  {
    var rest := Escape(s[1..]) + tail;
    if s[0] == '{' || s[0] == '}' {
      assert Escape(s) + tail == [s[0], s[0]] + rest;
      FormatUndoubles(s[0], rest, arg, Unused);
    } else {
      assert Escape(s) + tail == [s[0]] + rest;
      FormatCopies(s[0], rest, arg, Unused);
    }
  }

  /** Formatting undoes escaping: an escaped text followed by a `{}` field
      formats to the text followed by the argument. */
  lemma {:induction false} FormatEscape(s: string, tail: string, arg: string)
    requires Format(tail, arg).Some?
    ensures Format(Escape(s) + tail, arg) == Some(s + Format(tail, arg).value)
    decreases |s|
  {
    var v := Format(tail, arg).value;
    if s == [] {
      assert Escape(s) + tail == tail;
      assert s + v == v;
    } else {
      FormatEscapedHead(s, tail, arg);
      FormatEscape(s[1..], tail, arg);
      assert [s[0]] + (s[1..] + v) == s + v;
    }
  }

  /** The `{}` template sends the prompt as is. */
  lemma BareTemplateVerbatim(prompt: string)
    ensures Format(BareTemplate, prompt) == Some(prompt)
  {
    assert BareTemplate[2..] == [];
    assert FormatFrom([], prompt, Automatic) == Some([]);
    assert prompt + [] == prompt;
  }

  /** Any literal text followed by `{}` puts the prompt after the text. */
  lemma PrefixTemplate(s: string, prompt: string)
    ensures Format(Escape(s) + BareTemplate, prompt) == Some(s + prompt)
  {
    BareTemplateVerbatim(prompt);
    FormatEscape(s, BareTemplate, prompt);
  }

  /** The text in front of the prompt in the default template. */
  const DefaultPrefix := "Answer the following question: "

  /** The default template is that text followed by `{}`, and the text has
      no brace to escape. */
  lemma DefaultTemplateParts()
    ensures DefaultTemplate == Escape(DefaultPrefix) + BareTemplate
  {
    NoOpeningBrace();
    NoClosingBrace();
    EscapeWithoutBraces(DefaultPrefix);
    DefaultTemplateSplits();
  }

  lemma NoOpeningBrace()
    ensures '{' !in DefaultPrefix
  {
  }

  lemma NoClosingBrace()
    ensures '}' !in DefaultPrefix
  {
  }

  lemma DefaultTemplateSplits()
    ensures DefaultTemplate == DefaultPrefix + BareTemplate
  {
  }

  /** With no `structure`, the model is asked "Answer the following
      question: " followed by the prompt. */
  lemma DefaultTemplateAsks(prompt: string)
    ensures Format(TemplateOf(None), prompt) == Some(DefaultPrefix + prompt)
  {
    DefaultTemplateParts();
    PrefixTemplate(DefaultPrefix, prompt);
  }

  /** A `structure` without `prompt_template` sends the prompt as is. */
  lemma MissingTemplateVerbatim(prompt: string, structure: map<string, string>)
    requires "prompt_template" !in structure
    ensures Format(TemplateOf(Some(structure)), prompt) == Some(prompt)
  {
    BareTemplateVerbatim(prompt);
  }

  /** Text without braces needs no escaping. */
  lemma {:induction false} EscapeWithoutBraces(s: string)
    requires '{' !in s && '}' !in s
    ensures Escape(s) == s
    decreases |s|
  {
    if s != [] {
      assert '{' !in s[1..] && '}' !in s[1..] by {
        forall i | 0 <= i < |s| - 1 ensures s[1..][i] != '{' && s[1..][i] != '}' {
          assert s[1..][i] == s[i + 1];
        }
      }
      EscapeWithoutBraces(s[1..]);
    }
  }

  /** A template that names the argument twice automatically raises. */
  lemma SecondAutomaticFieldRaises(prompt: string)
    ensures Format("{}{}", prompt).None?
    ensures Format("{0}{0}", prompt) == Some(prompt + prompt)
  {
    assert "{}{}"[2..] == "{}";
    assert FormatFrom("{}", prompt, Automatic).None?;
    assert "{0}{0}"[3..] == "{0}";
    assert "{0}"[3..] == [];
    assert FormatFrom([], prompt, Manual) == Some([]);
    assert FormatFrom("{0}", prompt, Manual) == Some(prompt) by {
      assert prompt + [] == prompt;
    }
  }

  /** `s.replace([c], "")`: every occurrence of `c` removed. */
  function RemoveChar(s: string, c: char): (r: string)
    ensures |r| <= |s|
    ensures c !in r
  {
    if s == [] then []
    else if s[0] == c then RemoveChar(s[1..], c)
    else [s[0]] + RemoveChar(s[1..], c)
  }

  /** `response.replace("\n", "").replace("\"", "")`. */
  function Sanitize(s: string): string {
    RemoveChar(RemoveChar(s, '\n'), '"')
  }

  /** The characters the sanitiser keeps. */
  predicate Kept(c: char) { c != '\n' && c != '"' }

  /** Reference definition: one pass keeping the other characters. */
  function KeepOthers(s: string): (r: string)
    ensures forall i :: 0 <= i < |r| ==> Kept(r[i])
  {
    if s == [] then []
    else if Kept(s[0]) then [s[0]] + KeepOthers(s[1..])
    else KeepOthers(s[1..])
  }

  lemma {:induction false} RemoveKept(s: string, c: char)
    requires !Kept(c)
    ensures KeepOthers(RemoveChar(s, c)) == KeepOthers(s)
    decreases |s|
  {
    if s != [] {
      RemoveKept(s[1..], c);
      if s[0] != c {
        assert ([s[0]] + RemoveChar(s[1..], c))[1..] == RemoveChar(s[1..], c);
      }
    }
  }

  lemma {:induction false} KeepOthersFixed(s: string)
    requires forall i :: 0 <= i < |s| ==> Kept(s[i])
    ensures KeepOthers(s) == s
    decreases |s|
  {
    if s != [] {
      KeepOthersFixed(s[1..]);
    }
  }

  /** Both removals together keep exactly the other characters, in their
      order. */
  lemma SanitizeKeepsOthers(s: string)
    ensures Sanitize(s) == KeepOthers(s)
  {
    var r := Sanitize(s);
    RemoveKept(s, '\n');
    RemoveKept(RemoveChar(s, '\n'), '"');
    assert forall i :: 0 <= i < |r| ==> Kept(r[i]) by {
      NoNewlineSurvives(RemoveChar(s, '\n'));
    }
    KeepOthersFixed(r);
  }

  /** Removing quotes puts no newline back. */
  lemma {:induction false} NoNewlineSurvives(s: string)
    requires '\n' !in s
    ensures '\n' !in RemoveChar(s, '"')
    decreases |s|
  {
    if s != [] {
      NoNewlineSurvives(s[1..]);
    }
  }

  /** Each kept character occurs as often as before. */
  lemma {:induction false} KeepOthersCounts(s: string)
    ensures forall c :: Kept(c) ==> multiset(KeepOthers(s))[c] == multiset(s)[c]
    ensures forall c :: !Kept(c) ==> multiset(KeepOthers(s))[c] == 0
    decreases |s|
  {
    if s != [] {
      KeepOthersCounts(s[1..]);
      assert s == [s[0]] + s[1..];
    }
  }

  /** Sanitising twice is sanitising once, so the history router's second
      pass changes nothing. */
  lemma SanitizeIdempotent(s: string)
    ensures Sanitize(Sanitize(s)) == Sanitize(s)
  {
    SanitizeKeepsOthers(s);
    SanitizeKeepsOthers(Sanitize(s));
    KeepOthersFixed(Sanitize(s));
  }

  /** Why `get_response` raises. */
  datatype ResponseError =
    | FormatError    // `str.format` rejected the template
    | RuntimeError   // the model call failed; re-raised as `RuntimeError`

  /** `get_response`: `llm` is the model call, None when it raises. The
      result is the dict with the single key `response`. */
  function GetResponse(prompt: string, structure: Option<map<string, string>>,
                       llm: string -> Option<string>): (r: Result<map<string, string>, ResponseError>)
    ensures r.Err? && r.error == FormatError <==> Format(TemplateOf(structure), prompt).None?
    ensures r.Ok? ==> r.value.Keys == {"response"}
    ensures r.Ok? ==> '\n' !in r.value["response"] && '"' !in r.value["response"]
  {
    match Format(TemplateOf(structure), prompt)
    case None => Err(FormatError)
    case Some(formatted) =>
      match llm(formatted)
      case None => Err(RuntimeError)
      case Some(output) =>
        var text := Sanitize(output);
        NoNewlineSurvives(RemoveChar(output, '\n'));
        Ok(map["response" := text])
  }

  /** The reply is the model's output for the formatted prompt with exactly
      the newlines and quotes taken out; a failing model call is a
      `RuntimeError`. */
  lemma GetResponseReply(prompt: string, structure: Option<map<string, string>>, llm: string -> Option<string>)
    requires Format(TemplateOf(structure), prompt).Some?
    ensures var formatted := Format(TemplateOf(structure), prompt).value;
            && (llm(formatted).None? ==> GetResponse(prompt, structure, llm) == Err(RuntimeError))
            && (llm(formatted).Some? ==>
                  GetResponse(prompt, structure, llm) == Ok(map["response" := KeepOthers(llm(formatted).value)]))
  {
    var formatted := Format(TemplateOf(structure), prompt).value;
    if llm(formatted).Some? {
      SanitizeKeepsOthers(llm(formatted).value);
    }
  }
}
