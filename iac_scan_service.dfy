/**
 * The IaC scan adapter: the arguments of `snyk iac test` and the classification of the
 * CLI's raw output into issues or an error.
 */
module Iac {
  import opened Wrappers
  import opened Text

  /** The issues the CLI reports for one file; only the file is modelled. */
  datatype IacIssuesForFile = IacIssuesForFile(targetFile: string)

  /** An error shown to the user: a message and the path it concerns. */
  datatype SnykError = SnykError(message: string, path: string)

  /** The error object the CLI prints as JSON when a scan fails. */
  datatype CliError = CliError(message: string, path: string)

  /** A scan result: the issues (null when there are none to show) and the error (null when none). */
  datatype IacResult = IacResult(allCliIssues: Option<seq<IacIssuesForFile>>, error: Option<SnykError>)

  /** Gson's `JsonSyntaxException`: its message, which may be null, and its `toString()`. */
  datatype JsonSyntaxException = JsonSyntaxException(message: Option<string>, description: string)

  /** The outcome of one Gson decoding: a value, or a syntax exception. */
  datatype Decoded<T> = Decoded(value: T) | Malformed(exception: JsonSyntaxException)

  /** Gson, seen as three decoders: an issues list, the issues of one file, a CLI error. */
  datatype Gson = Gson(
    issuesList: string -> Decoded<seq<IacIssuesForFile>>,
    issuesForFile: string -> Decoded<IacIssuesForFile>,
    cliError: string -> Decoded<CliError>)

  const NoOutputMessage: string := "CLI fail to produce any output"
  const IssuesKey: string := "\"infrastructureAsCodeIssues\":"
  const ErrorKey: string := "\"error\":"

  /** `e.message ?: e.toString()`. */
  function ExceptionText(e: JsonSyntaxException): string {
    e.message.GetOr(e.description)
  }

  /** A JSON object is a successful scan when it has the issues key and no error key. */
  predicate IsSuccessCliJsonString(jsonStr: string) {
    Contains(jsonStr, IssuesKey) && !Contains(jsonStr, ErrorKey)
  }

  /** The success test in terms of where the two keys occur. */
  lemma SuccessCheckIff(jsonStr: string)
    ensures IsSuccessCliJsonString(jsonStr)
            <==> (exists i :: OccursAt(jsonStr, IssuesKey, i)) && !(exists i :: OccursAt(jsonStr, ErrorKey, i))
  {
    ContainsIffOccurs(jsonStr, IssuesKey);
    ContainsIffOccurs(jsonStr, ErrorKey);
  }

  /** The adapter of one project; its errors carry the project's path. */
  datatype IacScanService = IacScanService(projectPath: string) {

    /** The CLI command `scan` runs. */
    function ScanCommand(): seq<string> {
      ["iac", "test"]
    }

    /** The options added to every command: JSON output. */
    function BuildExtraOptions(): seq<string> {
      ["--json"]
    }

    /** An error result: no issues, the message paired with the project's path. */
    function GetErrorResult(errorMsg: string): (r: IacResult)
      ensures r.allCliIssues == None
      ensures r.error.Some? && r.error.value.message == errorMsg && r.error.value.path == projectPath
    {
      IacResult(None, Some(SnykError(errorMsg, projectPath)))
    }

    /**
     * Classifies the CLI's raw output. Every decoding failure is caught and becomes an
     * error with the exception's text and the project's path.
     */
    function ConvertRawCliStringToCliResult(rawStr: string, gson: Gson, processCancelledByUser: string): (r: IacResult)
      ensures rawStr == processCancelledByUser ==> r.allCliIssues == None && r.error == None
      ensures rawStr != processCancelledByUser ==> (r.allCliIssues.Some? <==> r.error.None?)
      ensures r.error.Some? && r.error.value.path != projectPath ==>
                rawStr != processCancelledByUser && rawStr != [] && rawStr[0] == '{' && !IsSuccessCliJsonString(rawStr)
    {
      if rawStr == processCancelledByUser then
        IacResult(None, None)
      else if rawStr == [] then
        IacResult(None, Some(SnykError(NoOutputMessage, projectPath)))
      else if rawStr[0] == '[' then
        match gson.issuesList(rawStr)
        case Decoded(issues) => IacResult(Some(issues), None)
        case Malformed(e) => IacResult(None, Some(SnykError(ExceptionText(e), projectPath)))
      else if rawStr[0] == '{' then
        if IsSuccessCliJsonString(rawStr) then
          match gson.issuesForFile(rawStr)
          case Decoded(issues) => IacResult(Some([issues]), None)
          case Malformed(e) => IacResult(None, Some(SnykError(ExceptionText(e), projectPath)))
        else
          match gson.cliError(rawStr)
          case Decoded(cliError) => IacResult(None, Some(SnykError(cliError.message, cliError.path)))
          case Malformed(e) => IacResult(None, Some(SnykError(ExceptionText(e), projectPath)))
      else
        IacResult(None, Some(SnykError(rawStr, projectPath)))
    }

    /** Empty output, when it is not the cancellation marker, is the "no output" error. */
    lemma EmptyOutputIsError(gson: Gson, processCancelledByUser: string)
      requires processCancelledByUser != []
      ensures ConvertRawCliStringToCliResult([], gson, processCancelledByUser) == GetErrorResult(NoOutputMessage)
    {
    }

    /** Output starting with `[` is the decoded issues list, or the decoder's syntax error. */
    lemma ArrayOutput(rawStr: string, gson: Gson, processCancelledByUser: string)
      requires rawStr != processCancelledByUser && rawStr != [] && rawStr[0] == '['
      ensures var r := ConvertRawCliStringToCliResult(rawStr, gson, processCancelledByUser);
              match gson.issuesList(rawStr)
              case Decoded(issues) => r == IacResult(Some(issues), None)
              case Malformed(e) => r == GetErrorResult(ExceptionText(e))
    {
    }

    /**
     * Output starting with `{` is one file's issues when the success test passes, otherwise
     * the CLI's own error message and path; a syntax error becomes an error either way.
     */
    lemma ObjectOutput(rawStr: string, gson: Gson, processCancelledByUser: string)
      requires rawStr != processCancelledByUser && rawStr != [] && rawStr[0] == '{'
      ensures var r := ConvertRawCliStringToCliResult(rawStr, gson, processCancelledByUser);
              IsSuccessCliJsonString(rawStr) ==>
                match gson.issuesForFile(rawStr)
                case Decoded(issues) => r.allCliIssues == Some([issues]) && r.error == None
                case Malformed(e) => r == GetErrorResult(ExceptionText(e))
      ensures var r := ConvertRawCliStringToCliResult(rawStr, gson, processCancelledByUser);
              !IsSuccessCliJsonString(rawStr) ==>
                match gson.cliError(rawStr)
                case Decoded(cliError) => r == IacResult(None, Some(SnykError(cliError.message, cliError.path)))
                case Malformed(e) => r == GetErrorResult(ExceptionText(e))
    {
    }

    /**
     * Whichever decoder the output's first character selects, its syntax exception is caught:
     * the result is the exception's text with the project's path, and no issues.
     */
    lemma MalformedJsonCaught(rawStr: string, gson: Gson, processCancelledByUser: string, e: JsonSyntaxException)
      requires rawStr != processCancelledByUser && rawStr != []
      requires || (rawStr[0] == '[' && gson.issuesList(rawStr) == Malformed(e))
               || (rawStr[0] == '{' && IsSuccessCliJsonString(rawStr) && gson.issuesForFile(rawStr) == Malformed(e))
               || (rawStr[0] == '{' && !IsSuccessCliJsonString(rawStr) && gson.cliError(rawStr) == Malformed(e))
      ensures ConvertRawCliStringToCliResult(rawStr, gson, processCancelledByUser) == GetErrorResult(ExceptionText(e))
    {
    }

    /** Any other output is passed on as the error message itself. */
    lemma OtherOutputEchoed(rawStr: string, gson: Gson, processCancelledByUser: string)
      requires rawStr != processCancelledByUser && rawStr != [] && rawStr[0] != '[' && rawStr[0] != '{'
      ensures ConvertRawCliStringToCliResult(rawStr, gson, processCancelledByUser) == GetErrorResult(rawStr)
    {
    }

    /** Output carrying the error key is never read as issues, whatever else it contains. */
    lemma ErrorKeyNeverSuccess(rawStr: string, gson: Gson, processCancelledByUser: string, i: nat)
      requires rawStr != [] && rawStr[0] == '{' && OccursAt(rawStr, ErrorKey, i)
      ensures ConvertRawCliStringToCliResult(rawStr, gson, processCancelledByUser).allCliIssues == None
    {
      SuccessCheckIff(rawStr);
    }
  }
}
