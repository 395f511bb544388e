/** The orchestrator of bot.py: credential loading at start-up, name generation with
    its error wrapping, and the single run insert-then-post. The Gemini and tweepy
    requests are oracles: their replies are part of the outside world given to a run. */
module Bot {
  import opened Wrappers
  import opened Env
  import opened Prompt
  import opened Logging
  import opened Store

  /** The five variables read at start-up, in the order they are read. */
  const CredentialNames: seq<string> :=
    ["GEMINI_API_KEY", "X_API_KEY", "X_API_KEY_SECRET", "X_ACCESS_TOKEN", "X_ACCESS_TOKEN_SECRET"]

  datatype Credentials = Credentials(
    geminiApiKey: string,
    xApiKey: string,
    xApiKeySecret: string,
    xAccessToken: string,
    xAccessTokenSecret: string)

  /** The template file the script reads (the default of gen_radio_name). */
  const PromptFile := "prompt.txt"

  /** Everything the run reads from outside the process. `template` is the contents of
      PromptFile (None when it does not exist); `readFault` and `writeFault` are the
      sqlite failures of the SELECT and the INSERT (None when they reach the table);
      `geminiReply` is what the Gemini request answers: generated text, or the detail
      of the exception it raises; `twitterReply` is what the tweepy request answers.
      The run makes each request at most once, so one reply per request stands for
      any behaviour of the remote service. */
  datatype Externals = Externals(
    env: map<string, string>,
    template: Option<string>,
    readFault: Option<string>,
    writeFault: Option<string>,
    geminiReply: Result<string>,
    twitterReply: Result<()>)

  /** An outbound call the run makes, recorded whether or not it succeeds. */
  datatype Call =
    | ReadNames
    | Generate(apiKey: string, prompt: string)
    | InsertName(name: string)
    | PostName(creds: Credentials, text: string)

  /** Index of the first variable in `names` that fails to load (|names| if none). */
  function FirstMissing(env: map<string, string>, names: seq<string>): (k: nat)
    ensures k <= |names|
    ensures forall j :: 0 <= j < k ==> GetEnvVariable(env, names[j]).Ok?
    ensures k < |names| ==> GetEnvVariable(env, names[k]).Err?
  {
    if names == [] || GetEnvVariable(env, names[0]).Err? then 0
    else
      var k := FirstMissing(env, names[1..]);
      assert forall j :: 1 <= j <= k ==> names[j] == names[1..][j - 1];
      1 + k
  }

  /** The start-up block: the five credentials, each read in turn; the first one
      that fails ends it. */
  function LoadCredentials(env: map<string, string>): (r: Result<Credentials>)
    ensures r.Ok? <==>
      && GetEnvVariable(env, "GEMINI_API_KEY").Ok? && GetEnvVariable(env, "X_API_KEY").Ok?
      && GetEnvVariable(env, "X_API_KEY_SECRET").Ok? && GetEnvVariable(env, "X_ACCESS_TOKEN").Ok?
      && GetEnvVariable(env, "X_ACCESS_TOKEN_SECRET").Ok?
    ensures r.Ok? ==>
      && r.value.geminiApiKey != [] && r.value.xApiKey != [] && r.value.xApiKeySecret != []
      && r.value.xAccessToken != [] && r.value.xAccessTokenSecret != []
    ensures r.Err? ==>
      || r.error == MissingMessage("GEMINI_API_KEY") || r.error == MissingMessage("X_API_KEY")
      || r.error == MissingMessage("X_API_KEY_SECRET") || r.error == MissingMessage("X_ACCESS_TOKEN")
      || r.error == MissingMessage("X_ACCESS_TOKEN_SECRET")
  {
    match GetEnvVariable(env, "GEMINI_API_KEY")
    case Err(e) => Err(e)
    case Ok(gemini) =>
      match GetEnvVariable(env, "X_API_KEY")
      case Err(e) => Err(e)
      case Ok(key) =>
        match GetEnvVariable(env, "X_API_KEY_SECRET")
        case Err(e) => Err(e)
        case Ok(keySecret) =>
          match GetEnvVariable(env, "X_ACCESS_TOKEN")
          case Err(e) => Err(e)
          case Ok(token) =>
            match GetEnvVariable(env, "X_ACCESS_TOKEN_SECRET")
            case Err(e) => Err(e)
            case Ok(tokenSecret) => Ok(Credentials(gemini, key, keySecret, token, tokenSecret))
  }

  /** Start-up succeeds exactly when all five variables are set to something other
      than whitespace, and then holds their stripped values; otherwise it fails with
      the error of the first one, in CredentialNames order, that is unset or blank. */
  lemma LoadCredentialsSpec(env: map<string, string>)
    ensures var r := LoadCredentials(env);
      && (r.Ok? <==> FirstMissing(env, CredentialNames) == 5)
      && (r.Ok? ==>
        && GetEnvVariable(env, "GEMINI_API_KEY") == Ok(r.value.geminiApiKey)
        && GetEnvVariable(env, "X_API_KEY") == Ok(r.value.xApiKey)
        && GetEnvVariable(env, "X_API_KEY_SECRET") == Ok(r.value.xApiKeySecret)
        && GetEnvVariable(env, "X_ACCESS_TOKEN") == Ok(r.value.xAccessToken)
        && GetEnvVariable(env, "X_ACCESS_TOKEN_SECRET") == Ok(r.value.xAccessTokenSecret))
      && (r.Err? ==>
        FirstMissing(env, CredentialNames) < 5
        && r.error == MissingMessage(CredentialNames[FirstMissing(env, CredentialNames)]))
  {
    var n := CredentialNames;
    assert n[1..] == ["X_API_KEY", "X_API_KEY_SECRET", "X_ACCESS_TOKEN", "X_ACCESS_TOKEN_SECRET"];
    assert n[2..] == n[1..][1..] == ["X_API_KEY_SECRET", "X_ACCESS_TOKEN", "X_ACCESS_TOKEN_SECRET"];
    assert n[3..] == n[2..][1..] == ["X_ACCESS_TOKEN", "X_ACCESS_TOKEN_SECRET"];
    assert n[4..] == n[3..][1..] == ["X_ACCESS_TOKEN_SECRET"];
    assert n[5..] == n[4..][1..] == [];
    var k0, k1, k2, k3, k4, k5 :=
      FirstMissing(env, n), FirstMissing(env, n[1..]), FirstMissing(env, n[2..]),
      FirstMissing(env, n[3..]), FirstMissing(env, n[4..]), FirstMissing(env, n[5..]);
    assert k5 == 0;
  }

  const GenerateFailed := "Failed to generate radio name: "
  const GeminiFailed := "Failed to send request to Gemini API: "
  const PostFailed := "Failed to post tweet: "

  /** send_request_to_gemini_api: the reply text as it comes, or the wrapped failure. */
  function SendRequestToGemini(reply: Result<string>): (r: Result<string>)
    ensures r.Ok? <==> reply.Ok?
    ensures r.Ok? ==> r.value == reply.value
    ensures r.Err? ==> r.error == GeminiFailed + reply.error
  {
    match reply
    case Ok(text) => Ok(text)
    case Err(detail) => Err(GeminiFailed + detail)
  }

  /** gen_radio_name, given the outcome of reading the past names (that read sits
      outside the `try`, so its error passes through unwrapped) and the generator's
      reply. Any failure after the read is re-raised under the "Failed to generate
      radio name: " prefix; on success the generator's text is returned without any
      check. */
  function GenRadioName(past: Result<seq<string>>, templateFile: string, template: Option<string>,
                        reply: Result<string>): (r: Result<string>)
    ensures past.Err? ==> r == Err(past.error)
    ensures past.Ok? && r.Err? ==> StartsWith(r.error, GenerateFailed)
    ensures past.Ok? && template.None? ==> r == Err(GenerateFailed + TemplateMissing(templateFile))
    ensures past.Ok? && template.Some? && reply.Err? ==>
      r == Err(GenerateFailed + GeminiFailed + reply.error)
    ensures r.Ok? <==> past.Ok? && template.Some? && reply.Ok?
    ensures r.Ok? ==> r.value == reply.value
  {
    match past
    case Err(e) => Err(e)
    case Ok(names) =>
      match GetPrompt(names, templateFile, template)
      case Err(e) => Err(GenerateFailed + e)
      case Ok(prompt) =>
        match SendRequestToGemini(reply)
        case Err(e) => Err(GenerateFailed + e)
        case Ok(text) => Ok(text)
  }

  /** post_tweet: success, or the wrapped failure of the tweepy call. */
  function PostTweet(reply: Result<()>): (r: Result<()>)
    ensures r.Ok? <==> reply.Ok?
    ensures r.Err? ==> r.error == PostFailed + reply.error
  {
    match reply
    case Ok(_) => Ok(())
    case Err(detail) => Err(PostFailed + detail)
  }

  /** The result of one run of the script: exit status, the log lines written, the
      outbound calls made (in order) and the table afterwards. */
  datatype Outcome = Outcome(exitCode: nat, log: seq<LogLine>, calls: seq<Call>, rows: seq<string>)

  function Info(message: string): LogLine { LogLine("INFO", message) }
  function Error(message: string): LogLine { LogLine("ERROR", message) }

  /** The calls gen_radio_name makes: the read, then the generation request when
      the read succeeded and the template exists. */
  function GenerationCalls(apiKey: string, rows: seq<string>, x: Externals): (r: seq<Call>)
    ensures 1 <= |r| <= 2 && r[0] == ReadNames
    ensures |r| == 2 <==> GetAllRadioNames(rows, x.readFault).Ok? && GetPrompt(rows, PromptFile, x.template).Ok?
    ensures |r| == 2 ==>
      r[1] == Generate(apiKey, GetPrompt(GetAllRadioNames(rows, x.readFault).value, PromptFile, x.template).value)
  {
    if x.readFault.None? && x.template.Some?
    then [ReadNames, Generate(apiKey, x.template.value + Join(rows))]
    else [ReadNames]
  }

  /** The `__main__` block, once the credentials are loaded: generate, log, insert,
      post, log. */
  function MainSpec(creds: Credentials, rows: seq<string>, x: Externals): (o: Outcome)
    ensures o.exitCode <= 1
    ensures o.log != [] && o.log[|o.log| - 1].level == (if o.exitCode == 0 then "INFO" else "ERROR")
    ensures o.calls != [] && o.calls[0] == ReadNames
    ensures o.rows == rows
      || (x.geminiReply.Ok? && x.geminiReply.value !in rows && o.rows == rows + [x.geminiReply.value])
  {
    var generated := GenRadioName(GetAllRadioNames(rows, x.readFault), PromptFile, x.template, x.geminiReply);
    var gen := GenerationCalls(creds.geminiApiKey, rows, x);
    match generated
    case Err(e) => Outcome(1, [Error(e)], gen, rows)
    case Ok(name) =>
      var announced := Info("Generated radio name: " + name);
      match InsertError(rows, name, x.writeFault)
      case Some(e) => Outcome(1, [announced, Error(e)], gen + [InsertName(name)], rows)
      case None =>
        var posting := gen + [InsertName(name), PostName(creds, name)];
        match PostTweet(x.twitterReply)
        case Err(e) => Outcome(1, [announced, Error(e)], posting, rows + [name])
        case Ok(_) => Outcome(0, [announced, Info("Posted radio name: " + name)], posting, rows + [name])
  }

  /** The whole script as a function of the table it starts from and the outside
      world: the start-up block, then the `__main__` block. */
  function RunSpec(rows: seq<string>, x: Externals): (o: Outcome)
    ensures o.exitCode <= 1
    ensures o.log != [] && (o.exitCode == 1 <==> o.log[|o.log| - 1].level == "ERROR")
    ensures LoadCredentials(x.env).Err? ==> o.exitCode == 1 && o.calls == [] && o.rows == rows
    ensures Distinct(rows) ==> Distinct(o.rows)
  {
    match LoadCredentials(x.env)
    case Err(e) => Outcome(1, [Error(e), Error(e)], [], rows)
    case Ok(creds) => MainSpec(creds, rows, x)
  }

  /** The process: the persistent table, the console, the outbound calls so far and
      the exit status. */
  class RadioNameBot {
    var rows: seq<string>
    var log: seq<LogLine>
    var calls: seq<Call>
    var exitCode: nat

    ghost predicate Valid()
      reads this
    {
      Distinct(rows)
    }

    constructor (stored: seq<string>)
      requires Distinct(stored)
      ensures Valid()
      ensures rows == stored && log == [] && calls == [] && exitCode == 0
    {
      rows := stored;
      log := [];
      calls := [];
      exitCode := 0;
    }

    /** print_log: writes one line for a known level, and nothing otherwise. */
    method Emit(level: string, message: string) returns (r: Result<()>)
      modifies this`log
      ensures r.Ok? <==> level in Levels
      ensures r.Err? ==> r.error == InvalidLevel(level)
      ensures level in Levels ==> log == old(log) + [LogLine(level, message)]
      ensures level !in Levels ==> log == old(log)
    {
      match PrintLog(level, message)
      case Err(e) =>
        r := Err(e);
      case Ok(line) =>
        log := log + [line];
        r := Ok(());
    }

    /** insert_radio_name: adds exactly `name`, or fails and leaves the table as it was. */
    method InsertRadioName(name: string, fault: Option<string>) returns (r: Result<()>)
      requires Valid()
      modifies this`rows
      ensures Valid()
      ensures r.Ok? <==> fault.None? && name !in old(rows)
      ensures r.Err? ==> r.error == InsertError(old(rows), name, fault).value
      ensures rows == if r.Ok? then old(rows) + [name] else old(rows)
    {
      InsertKeepsDistinct(rows, name, fault);
      match InsertError(rows, name, fault)
      case Some(e) =>
        r := Err(e);
      case None =>
        rows := rows + [name];
        r := Ok(());
    }

    /** gen_radio_name: reads the past names, builds the prompt and asks the
        generator, recording the outbound calls it makes. */
    method GenerateName(apiKey: string, x: Externals) returns (r: Result<string>)
      modifies this`calls
      ensures r == GenRadioName(GetAllRadioNames(rows, x.readFault), PromptFile, x.template, x.geminiReply)
      ensures calls == old(calls) + GenerationCalls(apiKey, rows, x)
    {
      var past := GetAllRadioNames(rows, x.readFault);
      calls := calls + [ReadNames];
      if past.Ok? && x.template.Some? {
        var prompt := GetPrompt(past.value, PromptFile, x.template).value;
        calls := calls + [Generate(apiKey, prompt)];
      }
      r := GenRadioName(past, PromptFile, x.template, x.geminiReply);
    }

    /** The `__main__` block: every failure is logged at ERROR and ends the run with
        status 1; the insert comes before the post. */
    method MainBlock(creds: Credentials, x: Externals)
      requires Valid()
      modifies this
      ensures Valid()
      ensures var o := MainSpec(creds, old(rows), x);
        exitCode == o.exitCode && rows == o.rows
        && log == old(log) + o.log && calls == old(calls) + o.calls
    {
      ghost var log0, calls0, rows0 := log, calls, rows;
      ghost var gen := GenerationCalls(creds.geminiApiKey, rows, x);
      var generated := GenerateName(creds.geminiApiKey, x);
      if generated.Err? {
        var _ := Emit("ERROR", generated.error);
        exitCode := 1;
        return;
      }
      var name := generated.value;
      var announced := Info("Generated radio name: " + name);
      var _ := Emit("INFO", announced.message);
      assert log == log0 + [announced];

      calls := calls + [InsertName(name)];
      assert calls == calls0 + (gen + [InsertName(name)]);
      var inserted := InsertRadioName(name, x.writeFault);
      if inserted.Err? {
        var _ := Emit("ERROR", inserted.error);
        exitCode := 1;
        assert log == log0 + [announced, Error(inserted.error)];
        return;
      }

      calls := calls + [PostName(creds, name)];
      assert calls == calls0 + (gen + [InsertName(name), PostName(creds, name)]);
      var posted := PostTweet(x.twitterReply);
      if posted.Err? {
        var _ := Emit("ERROR", posted.error);
        exitCode := 1;
        assert log == log0 + [announced, Error(posted.error)];
        return;
      }
      var _ := Emit("INFO", "Posted radio name: " + name);
      exitCode := 0;
      assert log == log0 + [announced, Info("Posted radio name: " + name)];
    }

    /** The script from start-up to exit: the five credentials, then the `__main__`
        block. */
    method Run(x: Externals)
      requires Valid()
      modifies this
      ensures Valid()
      ensures var o := RunSpec(old(rows), x);
        exitCode == o.exitCode && rows == o.rows
        && log == old(log) + o.log && calls == old(calls) + o.calls
    {
      var loaded := LoadCredentials(x.env);
      if loaded.Err? {
        // written once by a bare print and once more through print_log
        log := log + [Error(loaded.error)];
        var _ := Emit("ERROR", loaded.error);
        exitCode := 1;
        return;
      }
      MainBlock(loaded.value, x);
    }
  }
}
