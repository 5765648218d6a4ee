/** lib/parse-native-query-error.js: the footprint a driver error is
    classified into. Only the error's `code`, `stack`, `message`,
    `precedingErrors` and `raw.error` are read; `meta` passes through and is
    not modelled. */
module QueryErrors {
  import opened JsText
  import opened JsValue

  /** `err.raw.error` of a `queryFailed` error. */
  datatype InnerError = InnerError(precedingErrors: Value, message: Value)

  /** The native query error: not an object at all, or an object with the
      fields the classifier reads. `stack` is None when it is not a string
      (then `err.stack.includes` throws); `rawError` is None when `err.raw`
      or `err.raw.error` is missing. */
  datatype NativeError =
    | NotAnObject
    | ErrorObject(code: Option<string>, stack: Option<string>, message: Value, precedingErrors: Value,
                  rawError: Option<InnerError>)

  /** The footprint identities: `catchall` (possibly with `keys`),
      `notUnique` with the constraint names, `queryFailed` with the driver's
      preceding errors. */
  datatype Footprint =
    | Catchall
    | CatchallWithKeys(keys: seq<Value>)
    | NotUnique(names: seq<string>)
    | QueryFailed(preceding: Value)

  /** The success exit (`message` is None when the report has none), or an
      exception thrown while classifying. */
  datatype ParseExit = Parsed(footprint: Footprint, message: Option<Value>) | Threw

  const PreparePhrase := "Statement(s) could not be prepared"
  const UniquePhrase := "Violation of UNIQUE KEY constraint"
  /** The literal part of `/Violation of UNIQUE KEY constraint '(.*?)'/`. */
  const UniqueHead := "Violation of UNIQUE KEY constraint '"

  // ---------------------------------------------------------------------
  // The constraint-name regex

  /** The characters `.` does not match. */
  predicate LineTerminator(c: char)
  {
    c == '\n' || c == '\r' || c == '\U{2028}' || c == '\U{2029}'
  }

  /** The lazy `(.*?)'` from position `i`: the first quote reached before any
      line terminator. */
  function QuoteFrom(s: string, i: nat): (e: Option<nat>)
    ensures e.Some? ==> i <= e.value < |s| && s[e.value] == '\''
                        && forall j :: i <= j < e.value ==> s[j] != '\'' && !LineTerminator(s[j])
    decreases |s| - i
  {
    if i >= |s| then None
    else if s[i] == '\'' then Some(i)
    else if LineTerminator(s[i]) then None
    else QuoteFrom(s, i + 1)
  }

  /** The first match of `head(.*?)'` at or after `from`: the leftmost
      start where `head` occurs and a quote closes the capture on the same
      line. */
  function CaptureFrom(s: string, head: string, from: nat): (r: Option<string>)
    ensures r.Some? ==> NameLike(r.value) && Includes(s, head + r.value + "'")
    ensures !Includes(s, head) ==> r.None?
    decreases |s| - from
  {
    var q := IndexFrom(s, head, from);
    if q < 0 then None
    else
      match QuoteFrom(s, q + |head|)
      case Some(e) =>
        CapturedName(s, head, q, e);
        Some(s[q + |head|..e])
      case None => CaptureFrom(s, head, q + 1)
  }

  /** What `(.*?)` can capture: no quote and no line terminator. */
  predicate NameLike(name: string)
  {
    forall j :: 0 <= j < |name| ==> name[j] != '\'' && !LineTerminator(name[j])
  }

  /** A capture closed by a quote is a name, and the head, the name and the
      quote occur together. */
  lemma CapturedName(s: string, head: string, q: nat, e: nat)
    requires OccursAt(s, head, q)
    requires q + |head| <= e < |s| && s[e] == '\''
    requires forall j :: q + |head| <= j < e ==> s[j] != '\'' && !LineTerminator(s[j])
    ensures NameLike(s[q + |head|..e])
    ensures Includes(s, head + s[q + |head|..e] + "'")
  {
    var start := q + |head|;
    var name := s[start..e];
    forall j | 0 <= j < |name|
      ensures name[j] != '\'' && !LineTerminator(name[j])
    {
      assert name[j] == s[start + j];
    }
    assert s[q..start] == head;
    assert s[q..e + 1] == s[q..start] + name + [s[e]];
    IncludesAt(s, head + name + "'", q);
  }

  /** `message.match(/Violation of UNIQUE KEY constraint '(.*?)'/)[1]`. */
  function UniqueName(message: string): Option<string>
  {
    CaptureFrom(message, UniqueHead, 0)
  }

  lemma {:induction false} QuoteFromStopsAtQuote(s: string, i: nat, e: nat)
    requires i <= e < |s| && s[e] == '\''
    requires forall j :: i <= j < e ==> s[j] != '\'' && !LineTerminator(s[j])
    ensures QuoteFrom(s, i) == Some(e)
    decreases e - i
  {
    if i < e {
      QuoteFromStopsAtQuote(s, i + 1, e);
    }
  }

  /** A message that starts with the head, a quoted name on one line and
      anything after captures that name. */
  lemma CaptureOfMessage(head: string, name: string, rest: string)
    requires NameLike(name)
    ensures CaptureFrom(head + name + "'" + rest, head, 0) == Some(name)
  {
    var s := head + name + "'" + rest;
    var e := |head| + |name|;
    assert s[..|head|] == head;
    assert s[|head|..e] == name;
    forall j | |head| <= j < e
      ensures s[j] != '\'' && !LineTerminator(s[j])
    {
      assert s[j] == name[j - |head|];
    }
    QuoteFromStopsAtQuote(s, |head|, e);
    CaptureAtStart(s, head, e);
  }

  /** A head at the very start whose capture closes at `e` is the first
      match. */
  lemma CaptureAtStart(s: string, head: string, e: nat)
    requires |head| <= |s| && s[..|head|] == head
    requires QuoteFrom(s, |head|) == Some(e)
    ensures CaptureFrom(s, head, 0) == Some(s[|head|..e])
  {
    assert OccursAt(s, head, 0);
    assert IndexFrom(s, head, 0) == 0;
  }

  /** A message that starts with the phrase, a quoted name on one line and
      anything after gives that name. */
  lemma UniqueNameOfMessage(name: string, rest: string)
    requires NameLike(name)
    ensures UniqueName(UniqueHead + name + "'" + rest) == Some(name)
  {
    CaptureOfMessage(UniqueHead, name, rest);
  }

  /** The SQL Server message of the adapter's own test gives `AK_Name`. */
  lemma UniqueNameOfServerMessage()
    ensures UniqueName(UniqueHead + "AK_Name" + "'" + ". Cannot insert duplicate key in object 'dbo.people'.")
            == Some("AK_Name")
  {
    assert NameLike("AK_Name") by {
      forall j | 0 <= j < 7
        ensures "AK_Name"[j] != '\'' && !LineTerminator("AK_Name"[j])
      {
        assert j == 0 || j == 1 || j == 2 || j == 3 || j == 4 || j == 5 || j == 6;
      }
    }
    UniqueNameOfMessage("AK_Name", ". Cannot insert duplicate key in object 'dbo.people'.");
  }

  /** `keys` of a notUnique footprint: the captured name, or none when the
      message is not a string or does not match. */
  function UniqueKeys(message: Value): (keys: seq<string>)
    ensures |keys| <= 1
    ensures |keys| == 1 ==> message.Str? && Includes(message.s, UniqueHead + keys[0] + "'")
  {
    if message.Str? then
      match UniqueName(message.s)
      case Some(n) => [n]
      case None => []
    else []
  }

  // ---------------------------------------------------------------------
  // The classifier

  /** An error with a truthy `code`. */
  predicate Coded(err: NativeError)
  {
    err.ErrorObject? && TruthyText(err.code)
  }

  predicate IsRequestError(err: NativeError)
  {
    err.ErrorObject? && err.code == Some("EREQUEST")
  }

  /** `err.code === 'EREQUEST' && err.stack.includes(phrase)`, for an
      error whose stack is a string. */
  predicate StackSays(err: NativeError, phrase: string)
  {
    IsRequestError(err) && err.stack.Some? && Includes(err.stack.value, phrase)
  }

  /** What the classifier does after the prepare-failure block: the
      notUnique and queryFailed blocks and the final report. */
  function ClassifyRest(err: NativeError, footprint: Footprint): (r: ParseExit)
    requires Coded(err) && !(IsRequestError(err) && err.stack.None?)
  {
    var fp := if StackSays(err, UniquePhrase) then NotUnique(UniqueKeys(err.message)) else footprint;
    if err.code == Some("queryFailed") then
      match err.rawError
      case None => Threw
      case Some(inner) => Parsed(QueryFailed(inner.precedingErrors), Some(inner.message))
    else Parsed(fp, Some(err.message))
  }

  /** The classifier as written: the prepare-failure block sets
      `footprint.key` and then pushes onto the missing `footprint.keys`,
      which throws. */
  function ParseErrorAsWritten(err: NativeError): ParseExit
  {
    if !Coded(err) then Parsed(Catchall, None)
    else if IsRequestError(err) && err.stack.None? then Threw
    else if StackSays(err, PreparePhrase) then Threw
    else ClassifyRest(err, Catchall)
  }

  /** The classifier with the prepare-failure block doing what it evidently
      means: a catchall footprint whose `keys` hold the preceding errors. */
  function ParseError(err: NativeError): ParseExit
  {
    if !Coded(err) then Parsed(Catchall, None)
    else if IsRequestError(err) && err.stack.None? then Threw
    else
      var footprint := if StackSays(err, PreparePhrase) then CatchallWithKeys([err.precedingErrors]) else Catchall;
      ClassifyRest(err, footprint)
  }

  /** As written, every prepare failure reported by the driver ends in an
      exception instead of a footprint; the corrected classifier returns the
      catchall footprint carrying the preceding errors and the message. */
  lemma PrepareFailureThrowsAsWritten(stack: string, message: Value, preceding: Value, raw: Option<InnerError>)
    requires Includes(stack, PreparePhrase) && !Includes(stack, UniquePhrase)
    ensures var err := ErrorObject(Some("EREQUEST"), Some(stack), message, preceding, raw);
            ParseErrorAsWritten(err) == Threw
            && ParseError(err) == Parsed(CatchallWithKeys([preceding]), Some(message))
  {
  }

  /** The correction changes nothing but the prepare-failure case. */
  lemma CorrectionOnlyTouchesPrepareFailures(err: NativeError)
    requires !StackSays(err, PreparePhrase)
    ensures ParseError(err) == ParseErrorAsWritten(err)
  {
  }

  /** The footprints the classifier returns, case by case. */
  lemma ParseErrorCases(err: NativeError)
    ensures !Coded(err) ==> ParseError(err) == Parsed(Catchall, None)
    ensures Coded(err) && IsRequestError(err) && err.stack.None? ==> ParseError(err) == Threw
    ensures StackSays(err, UniquePhrase) ==> ParseError(err) == Parsed(NotUnique(UniqueKeys(err.message)), Some(err.message))
    ensures StackSays(err, PreparePhrase) && !StackSays(err, UniquePhrase) ==>
              ParseError(err) == Parsed(CatchallWithKeys([err.precedingErrors]), Some(err.message))
    ensures Coded(err) && err.code == Some("queryFailed") ==>
              ParseError(err) == (if err.rawError.None? then Threw
                                  else Parsed(QueryFailed(err.rawError.value.precedingErrors), Some(err.rawError.value.message)))
    ensures Coded(err) && !IsRequestError(err) && err.code != Some("queryFailed") ==>
              ParseError(err) == Parsed(Catchall, Some(err.message))
    ensures IsRequestError(err) && err.stack.Some? && !Includes(err.stack.value, UniquePhrase)
            && !Includes(err.stack.value, PreparePhrase) ==>
              ParseError(err) == Parsed(Catchall, Some(err.message))
  {
  }

  /** A unique-key violation reported with the server's message is
      classified as notUnique on the constraint's name. */
  lemma NotUniqueNamesConstraint(stack: string, name: string, rest: string, preceding: Value, raw: Option<InnerError>)
    requires Includes(stack, UniquePhrase)
    requires NameLike(name)
    ensures var message := Str(UniqueHead + name + "'" + rest);
            ParseError(ErrorObject(Some("EREQUEST"), Some(stack), message, preceding, raw))
            == Parsed(NotUnique([name]), Some(message))
  {
    var message := Str(UniqueHead + name + "'" + rest);
    var err := ErrorObject(Some("EREQUEST"), Some(stack), message, preceding, raw);
    UniqueNameOfMessage(name, rest);
    assert UniqueKeys(message) == [name];
    assert StackSays(err, UniquePhrase);
    assert "EREQUEST" != "queryFailed" by {
      assert |"EREQUEST"| != |"queryFailed"|;
    }
  }
}
