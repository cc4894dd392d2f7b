/**
 * The guard sequence of the content assertion verbs BeAs and MatchInContent.
 *
 * The library calls they make are inputs: the serializer's (success, error
 * message) pair, the failure lists that the equivalency check and the wildcard
 * match leave in their discarded inner assertion scope, and the rendered
 * content text. A failed assertion throws when no outer assertion scope
 * collects it, so the first failing check decides the outcome.
 */
module ContentAssertions {
  import opened JsonTree

  /** The response assertions object; `subject` is the response under test, None when null. */
  datatype Assertions<R> = Assertions(subject: Option<R>)

  /** What a verb returns on success: a constraint wrapping the assertions object. */
  datatype AndConstraint<R> = AndConstraint(and: Assertions<R>)

  /** The reason an assertion failed, with the data its message is built from. */
  datatype Failure =
    | SubjectIsNull
    | ContentNotParsed(modelType: string, errorMessage: string)
    | NotEquivalent(differences: seq<string>)
    | ContentIsNull(pattern: string)
    | NoWildcardMatch(failures: seq<string>)

  datatype Outcome<R> =
    | ArgumentNull(paramName: string)
    | Failed(failure: Failure)
    | Passed(constraint: AndConstraint<R>)

  /** What the configured serializer reports when it turns the content into a model. */
  datatype Deserialized = Deserialized(success: bool, errorMessage: string)

  /**
   * BeAs(expectedModel, options). `expectedModel` is the run-time type name of
   * the model, None for a null model; `optionsPresent` is false for a null
   * options delegate. `withOptions` and `withoutOptions` are the failures of the
   * equivalency check with and without the options delegate.
   */
  function BeAs<R>(self: Assertions<R>, expectedModel: Option<string>, optionsPresent: bool,
                   deserialized: Deserialized,
                   withOptions: seq<string>, withoutOptions: seq<string>): (r: Outcome<R>)
    ensures r.Passed? <==>
      optionsPresent && self.subject.Some? && expectedModel.Some? &&
      deserialized.success && withOptions == []
    ensures r.Passed? ==> r.constraint.and == self
    ensures r.ArgumentNull? ==> r.paramName == "options" || r.paramName == "expectedModel"
    ensures r == Failed(NotEquivalent(withOptions)) <==>
      optionsPresent && self.subject.Some? && expectedModel.Some? &&
      deserialized.success && withOptions != []
  {
    if !optionsPresent then
      ArgumentNull("options")
    else if self.subject.None? then
      Failed(SubjectIsNull)
    else if expectedModel.None? then
      ArgumentNull("expectedModel")
    else if !deserialized.success then
      Failed(ContentNotParsed(expectedModel.value, deserialized.errorMessage))
    else
      var failures := if optionsPresent then withOptions else withoutOptions;
      if |failures| != 0 then Failed(NotEquivalent(failures))
      else Passed(AndConstraint(self))
  }

  /**
   * MatchInContent(expectedWildcardText). `pattern` is None for a null pattern;
   * `content` is the rendered content, None when null; `matchFailures` are the
   * failures of the wildcard match.
   */
  function MatchInContent<R>(self: Assertions<R>, pattern: Option<string>, content: Option<string>,
                             matchFailures: seq<string>): (r: Outcome<R>)
    ensures r.Passed? <==>
      pattern.Some? && self.subject.Some? && content.Some? && content.value != [] && matchFailures == []
    ensures r.Passed? ==> r.constraint.and == self
    ensures r.ArgumentNull? ==> r.paramName == "expectedWildcardText"
    ensures pattern.Some? && self.subject.None? ==> r == Failed(SubjectIsNull)
    ensures r == Failed(NoWildcardMatch(matchFailures)) <==>
      pattern.Some? && self.subject.Some? && content.Some? && content.value != [] && matchFailures != []
  {
    if pattern.None? then
      ArgumentNull("expectedWildcardText")
    else if self.subject.None? then
      Failed(SubjectIsNull)
    else if content.None? || content.value == [] then
      Failed(ContentIsNull(pattern.value))
    else if |matchFailures| != 0 then
      Failed(NoWildcardMatch(matchFailures))
    else
      Passed(AndConstraint(self))
  }

  /** A null options delegate is rejected before anything else is looked at. */
  lemma BeAsChecksOptionsFirst<R>(self: Assertions<R>, expectedModel: Option<string>,
                                  deserialized: Deserialized, withOptions: seq<string>, withoutOptions: seq<string>)
    ensures BeAs(self, expectedModel, false, deserialized, withOptions, withoutOptions) == ArgumentNull("options")
  {
  }

  /** A null subject fails before the model is checked; a null model with a subject is an argument error. */
  lemma BeAsChecksSubjectBeforeModel<R>(self: Assertions<R>, expectedModel: Option<string>,
                                        deserialized: Deserialized, withOptions: seq<string>, withoutOptions: seq<string>)
    ensures self.subject.None? ==>
      BeAs(self, expectedModel, true, deserialized, withOptions, withoutOptions) == Failed(SubjectIsNull)
    ensures self.subject.Some? && expectedModel.None? ==>
      BeAs(self, expectedModel, true, deserialized, withOptions, withoutOptions) == ArgumentNull("expectedModel")
  {
  }

  /** A serializer failure is reported with its message verbatim, and the equivalency failures are not consulted. */
  lemma BeAsReportsParseFailure<R>(self: Assertions<R>, modelType: string, errorMessage: string,
                                   withOptions: seq<string>, withoutOptions: seq<string>,
                                   otherWithOptions: seq<string>, otherWithoutOptions: seq<string>)
    requires self.subject.Some?
    ensures BeAs(self, Some(modelType), true, Deserialized(false, errorMessage), withOptions, withoutOptions)
            == Failed(ContentNotParsed(modelType, errorMessage))
    ensures BeAs(self, Some(modelType), true, Deserialized(false, errorMessage), withOptions, withoutOptions)
            == BeAs(self, Some(modelType), true, Deserialized(false, errorMessage), otherWithOptions, otherWithoutOptions)
  {
  }

  /**
   * The branch that compares without the options delegate is unreachable: the
   * delegate was already guarded non-null, so those failures never matter.
   */
  lemma BeAsNeverComparesWithoutOptions<R>(self: Assertions<R>, expectedModel: Option<string>, optionsPresent: bool,
                                           deserialized: Deserialized, withOptions: seq<string>,
                                           withoutOptions: seq<string>, otherWithoutOptions: seq<string>)
    ensures BeAs(self, expectedModel, optionsPresent, deserialized, withOptions, withoutOptions)
            == BeAs(self, expectedModel, optionsPresent, deserialized, withOptions, otherWithoutOptions)
  {
  }

  /** A null pattern is rejected before the subject is checked, even when the subject is null too. */
  lemma MatchInContentChecksPatternFirst<R>(self: Assertions<R>, content: Option<string>, matchFailures: seq<string>)
    ensures MatchInContent(self, None, content, matchFailures) == ArgumentNull("expectedWildcardText")
  {
  }

  /** With a pattern given, a null subject fails before the content is looked at. */
  lemma MatchInContentChecksSubjectBeforeContent<R>(self: Assertions<R>, pattern: string, content: Option<string>,
                                                    matchFailures: seq<string>)
    requires self.subject.None?
    ensures MatchInContent(self, Some(pattern), content, matchFailures) == Failed(SubjectIsNull)
  {
  }

  /** Null or empty content fails whatever the pattern and before any matching, so even "*" fails on it. */
  lemma MatchInContentRejectsEmptyContent<R>(self: Assertions<R>, pattern: string, content: Option<string>,
                                             matchFailures: seq<string>)
    requires self.subject.Some?
    requires content.None? || content.value == []
    ensures MatchInContent(self, Some(pattern), content, matchFailures) == Failed(ContentIsNull(pattern))
  {
  }

  /**
   * The two verbs order their guards differently: with a null subject and a
   * null argument, BeAs reports the subject and MatchInContent the argument.
   */
  lemma GuardOrderDiffers<R>(self: Assertions<R>, deserialized: Deserialized, failures: seq<string>,
                             content: Option<string>)
    requires self.subject.None?
    ensures BeAs(self, None, true, deserialized, failures, failures) == Failed(SubjectIsNull)
    ensures MatchInContent(self, None, content, failures) == ArgumentNull("expectedWildcardText")
  {
  }

  /** On success both verbs hand back the same assertions object, for chaining with And. */
  lemma VerbsChainOnSameObject<R>(self: Assertions<R>, expectedModel: string, pattern: string, content: string)
    requires self.subject.Some? && content != []
    ensures BeAs(self, Some(expectedModel), true, Deserialized(true, ""), [], [])
            == MatchInContent(self, Some(pattern), Some(content), [])
            == Passed(AndConstraint(self))
  {
  }
}
