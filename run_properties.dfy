/** What a run of the script guarantees, stated over RunSpec: the order of the
    steps, what each failure leaves behind, and the exit status. */
module RunProperties {
  import opened Wrappers
  import opened Env
  import opened Prompt
  import opened Logging
  import opened Store
  import opened Bot

  /** A missing credential ends the run with status 1 before anything else happens:
      no read, no generation, no insert, no post; the error of the first missing
      variable is written twice. */
  lemma CredentialFailureStopsEverything(rows: seq<string>, x: Externals)
    requires LoadCredentials(x.env).Err?
    ensures FirstMissing(x.env, CredentialNames) < |CredentialNames|
    ensures var o := RunSpec(rows, x);
      var m := MissingMessage(CredentialNames[FirstMissing(x.env, CredentialNames)]);
      o.exitCode == 1 && o.calls == [] && o.rows == rows && o.log == [Error(m), Error(m)]
  {
    LoadCredentialsSpec(x.env);
  }

  /** A post happens only as the last call, straight after a successful insert of the
      same name: the table then holds exactly one new row, that name. */
  predicate PostComesLast(rows: seq<string>, o: Outcome) {
    forall k :: 0 <= k < |o.calls| && o.calls[k].PostName? ==>
      && k == |o.calls| - 1
      && 0 < k && o.calls[k - 1] == InsertName(o.calls[k].text)
      && o.calls[k].text !in rows
      && o.rows == rows + [o.calls[k].text]
  }

  lemma MainInsertBeforePost(creds: Credentials, rows: seq<string>, x: Externals)
    ensures PostComesLast(rows, MainSpec(creds, rows, x))
  {
    var gen := GenerationCalls(creds.geminiApiKey, rows, x);
    assert forall j :: 0 <= j < |gen| ==> !gen[j].PostName?;
  }

  lemma InsertBeforePost(rows: seq<string>, x: Externals)
    ensures PostComesLast(rows, RunSpec(rows, x))
  {
    match LoadCredentials(x.env)
    case Err(_) =>
    case Ok(creds) => MainInsertBeforePost(creds, rows, x);
  }

  /** An insert that fails (the name is already stored, or sqlite fails) means no
      post, an unchanged table, one ERROR line at the end, and status 1. */
  predicate NoPostAfterFailedInsert(rows: seq<string>, x: Externals, name: string, o: Outcome) {
    InsertName(name) in o.calls && (name in rows || x.writeFault.Some?) ==>
      && (forall k :: 0 <= k < |o.calls| ==> !o.calls[k].PostName?)
      && o.rows == rows && o.exitCode == 1
      && |o.log| == 2 && o.log[1] == Error(InsertError(rows, name, x.writeFault).value)
  }

  lemma MainFailedInsertNeverPosts(creds: Credentials, rows: seq<string>, x: Externals, name: string)
    ensures NoPostAfterFailedInsert(rows, x, name, MainSpec(creds, rows, x))
  {
    var gen := GenerationCalls(creds.geminiApiKey, rows, x);
    assert forall j :: 0 <= j < |gen| ==> !gen[j].InsertName? && !gen[j].PostName?;
  }

  lemma FailedInsertNeverPosts(rows: seq<string>, x: Externals, name: string)
    requires InsertName(name) in RunSpec(rows, x).calls
    requires name in rows || x.writeFault.Some?
    ensures var o := RunSpec(rows, x);
      && (forall k :: 0 <= k < |o.calls| ==> !o.calls[k].PostName?)
      && o.rows == rows && o.exitCode == 1
      && |o.log| == 2 && o.log[1] == Error(InsertError(rows, name, x.writeFault).value)
  {
    match LoadCredentials(x.env)
    case Err(_) =>
    case Ok(creds) =>
      MainFailedInsertNeverPosts(creds, rows, x, name);
      assert NoPostAfterFailedInsert(rows, x, name, RunSpec(rows, x));
  }

  /** When the post fails, the run ends with status 1, and if the post was attempted
      the generated name stays in the table: there is no rollback. */
  predicate FailedPostKept(rows: seq<string>, x: Externals, o: Outcome) {
    x.twitterReply.Err? ==>
      && o.exitCode == 1
      && forall k :: 0 <= k < |o.calls| && o.calls[k].PostName? ==>
        o.rows == rows + [o.calls[k].text]
        && o.log != [] && o.log[|o.log| - 1] == Error(PostFailed + x.twitterReply.error)
  }

  lemma MainFailedPostKeepsName(creds: Credentials, rows: seq<string>, x: Externals)
    ensures FailedPostKept(rows, x, MainSpec(creds, rows, x))
  {
    var gen := GenerationCalls(creds.geminiApiKey, rows, x);
    assert forall j :: 0 <= j < |gen| ==> !gen[j].PostName?;
  }

  lemma FailedPostKeepsName(rows: seq<string>, x: Externals)
    requires x.twitterReply.Err?
    ensures var o := RunSpec(rows, x);
      && o.exitCode == 1
      && forall k :: 0 <= k < |o.calls| && o.calls[k].PostName? ==>
        o.rows == rows + [o.calls[k].text]
        && o.log[|o.log| - 1] == Error(PostFailed + x.twitterReply.error)
  {
    match LoadCredentials(x.env)
    case Err(_) =>
    case Ok(creds) =>
      MainFailedPostKeepsName(creds, rows, x);
      assert FailedPostKept(rows, x, RunSpec(rows, x));
  }

  /** The run exits 0 exactly when every step succeeds; it then has stored and
      posted the generator's text, asked the generator with the template followed by
      the joined history, and written two INFO lines. */
  lemma SuccessfulRun(rows: seq<string>, x: Externals)
    ensures var o := RunSpec(rows, x);
      o.exitCode == 0 <==>
        && LoadCredentials(x.env).Ok? && x.readFault.None? && x.template.Some?
        && x.geminiReply.Ok? && x.geminiReply.value !in rows
        && x.writeFault.None? && x.twitterReply.Ok?
    ensures var o := RunSpec(rows, x);
      o.exitCode == 0 ==>
        var creds, name := LoadCredentials(x.env).value, x.geminiReply.value;
        && o.rows == rows + [name]
        && o.log == [Info("Generated radio name: " + name), Info("Posted radio name: " + name)]
        && o.calls == [ReadNames, Generate(creds.geminiApiKey, x.template.value + Join(rows)),
                       InsertName(name), PostName(creds, name)]
  {
  }

  /** The status is 0 or 1; a failed run ends with an ERROR line, a successful one
      writes only INFO lines; every line the run writes has a level print_log accepts. */
  predicate WellLogged(o: Outcome) {
    && o.exitCode <= 1
    && (o.exitCode == 1 ==> o.log != [] && o.log[|o.log| - 1].level == "ERROR")
    && (o.exitCode == 0 ==> forall k :: 0 <= k < |o.log| ==> o.log[k].level == "INFO")
    && forall k :: 0 <= k < |o.log| ==> PrintLog(o.log[k].level, o.log[k].message).Ok?
  }

  lemma MainExitStatusAndLog(creds: Credentials, rows: seq<string>, x: Externals)
    ensures WellLogged(MainSpec(creds, rows, x))
  {
  }

  lemma ExitStatusAndLog(rows: seq<string>, x: Externals)
    ensures WellLogged(RunSpec(rows, x))
  {
    match LoadCredentials(x.env)
    case Err(_) =>
    case Ok(creds) => MainExitStatusAndLog(creds, rows, x);
  }

  /** The table only grows, by at most one name that was not there before and that
      the run tried to insert; the UNIQUE constraint is kept. */
  lemma TableAppendOnly(rows: seq<string>, x: Externals)
    requires Distinct(rows)
    ensures var o := RunSpec(rows, x);
      && Distinct(o.rows)
      && (o.rows == rows
          || (|o.rows| == |rows| + 1 && o.rows[..|rows|] == rows && o.rows[|rows|] !in rows
              && InsertName(o.rows[|rows|]) in o.calls))
  {
  }

  /** With the credentials set, a store holding "Sunset FM" and "Night Wave", a
      generator answering "Echo Drift" and a publisher that succeeds, the run stores
      and posts "Echo Drift", writes two INFO lines and exits 0. */
  predicate EchoDriftPosted(creds: Credentials, o: Outcome) {
    && o.exitCode == 0
    && o.rows == ["Sunset FM", "Night Wave", "Echo Drift"]
    && o.log == [Info("Generated radio name: Echo Drift"), Info("Posted radio name: Echo Drift")]
    && o.calls != [] && o.calls[|o.calls| - 1] == PostName(creds, "Echo Drift")
  }

  lemma MainEchoDriftScenario(creds: Credentials, x: Externals)
    requires x.readFault.None? && x.template.Some? && x.writeFault.None?
    requires x.geminiReply == Ok("Echo Drift") && x.twitterReply.Ok?
    ensures EchoDriftPosted(creds, MainSpec(creds, ["Sunset FM", "Night Wave"], x))
  {
    assert "Echo Drift" != "Sunset FM" && "Echo Drift" != "Night Wave";
    assert "Generated radio name: " + "Echo Drift" == "Generated radio name: Echo Drift";
    assert "Posted radio name: " + "Echo Drift" == "Posted radio name: Echo Drift";
  }

  lemma EchoDriftScenario(x: Externals)
    requires LoadCredentials(x.env).Ok?
    requires x.readFault.None? && x.template.Some? && x.writeFault.None?
    requires x.geminiReply == Ok("Echo Drift") && x.twitterReply.Ok?
    ensures var o := RunSpec(["Sunset FM", "Night Wave"], x);
      && o.exitCode == 0
      && o.rows == ["Sunset FM", "Night Wave", "Echo Drift"]
      && o.log == [Info("Generated radio name: Echo Drift"), Info("Posted radio name: Echo Drift")]
      && o.calls[|o.calls| - 1] == PostName(LoadCredentials(x.env).value, "Echo Drift")
  {
    MainEchoDriftScenario(LoadCredentials(x.env).value, x);
  }

  /** A generator that repeats a stored name: the insert is refused, nothing is
      posted, one ERROR line is written and the run exits 1. */
  predicate DuplicateRefused(o: Outcome) {
    && o.exitCode == 1
    && o.rows == ["Sunset FM", "Night Wave"]
    && o.log == [Info("Generated radio name: Night Wave"), Error(InsertFailed + UniqueViolation)]
    && forall k :: 0 <= k < |o.calls| ==> !o.calls[k].PostName?
  }

  lemma MainDuplicateScenario(creds: Credentials, x: Externals)
    requires x.readFault.None? && x.template.Some? && x.writeFault.None?
    requires x.geminiReply == Ok("Night Wave")
    ensures DuplicateRefused(MainSpec(creds, ["Sunset FM", "Night Wave"], x))
  {
    assert "Night Wave" in ["Sunset FM", "Night Wave"];
    assert "Generated radio name: " + "Night Wave" == "Generated radio name: Night Wave";
    var gen := GenerationCalls(creds.geminiApiKey, ["Sunset FM", "Night Wave"], x);
    assert forall j :: 0 <= j < |gen| ==> !gen[j].PostName?;
  }

  lemma DuplicateScenario(x: Externals)
    requires LoadCredentials(x.env).Ok?
    requires x.readFault.None? && x.template.Some? && x.writeFault.None?
    requires x.geminiReply == Ok("Night Wave")
    ensures var o := RunSpec(["Sunset FM", "Night Wave"], x);
      && o.exitCode == 1
      && o.rows == ["Sunset FM", "Night Wave"]
      && o.log == [Info("Generated radio name: Night Wave"), Error(InsertFailed + UniqueViolation)]
      && forall k :: 0 <= k < |o.calls| ==> !o.calls[k].PostName?
  {
    MainDuplicateScenario(LoadCredentials(x.env).value, x);
  }
}
