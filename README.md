# FluentAssertions.Web content core, modelled in Dafny

FluentAssertions.Web adds assertions about HTTP responses to FluentAssertions.
This project models three pieces of it:

- **The JSON content processor** (`ContentProcessors`). It renders a response body for a failure message.
  `JsonProcessor.CanHandle` says whether the processor claims a content. It needs the content to be present and not disposed.
  The declared length must be at most `MaximumReadableBytes`. The media type must be `application/json` or
  `application/problem+json`, ignoring case. `JsonProcessor.Handle` appends text to the caller's `StringBuilder`:
  the indented re-serialisation when the body parses, the raw body otherwise.
  The JSON parser and the indenting writer are library code. They are the processor's `parse` and `indent` function fields.
- **The guard order of the content verbs** (`ContentAssertions`). `BeAs` and `MatchInContent` are pure functions.
  Their inputs are the library results: the serializer's `(success, errorMessage)`, the failure lists of the
  equivalency check and of the wildcard match, and the rendered content. Each verb returns an `Outcome`:
  an argument error, the first failed check, or the `AndConstraint` wrapping the assertions object.
  The first failure wins, because a failed assertion throws when no outer assertion scope collects it.
- **The JSON key queries** (`JsonExtensions`). `HasKey`, `GetStringValuesByKey` and `GetChildrenKeys` query a
  parsed object. Their implementation file is not part of this model. Their unit tests fix only part of
  their behaviour: a key nested in a child object is found, a missing key is not, the empty key is a key,
  `HasKey` ignores case, the three value shapes of `GetStringValuesByKey`, and that `GetChildrenKeys`
  gives the direct keys of the named object, compared without regard to order. The rest is a choice of
  this model: a key is looked up anywhere in the tree, arrays included, and the match is the first
  property, in document order, whose name equals the key ignoring case. `FindByKey` searches the tree recursively. It is proved equal to
  scanning the flattened property list (`AllMembers`, `FirstMatch`).

`Text` holds the case-insensitive comparison, as ASCII case folding. `JsonTree` holds the `Json` value type.

`CanHandle` accepts only the two exact names, so `application/vnd.x+json` and other `+json` types are
rejected (`MediaTypeExamples`).

## Model

| member | source | states |
|---|---|---|
| `ContentProcessors.JsonProcessor.constructor` | src/FluentAssertions.Web/Internal/ContentProcessors/JsonProcessor.cs:14-18 | the processor keeps the content it was given; the threshold, parser and writer it uses are fixed at construction |
| `ContentProcessors.JsonProcessor.CanHandle` | src/FluentAssertions.Web/Internal/ContentProcessors/JsonProcessor.cs:71-83 | false for an absent or disposed content and for a declared length above the threshold; true exactly when the content is present, undisposed, within the threshold (equal is accepted) and of a JSON media type |
| `ContentProcessors.JsonProcessor.MediaTypeIsJson` | src/FluentAssertions.Web/Internal/ContentProcessors/JsonProcessor.cs:79-82 | the two case-insensitive comparisons hold exactly when the lower-cased media type is one of the two JSON names; an absent media type is never JSON |
| `ContentProcessors.JsonProcessor.Rendering` | src/FluentAssertions.Web/Internal/ContentProcessors/JsonProcessor.cs:24-67 | when a stream is available and parses, the indented document; when there is no stream or the parse fails, the raw body; a parse failure never escapes |
| `ContentProcessors.JsonProcessor.Handle` | src/FluentAssertions.Web/Internal/ContentProcessors/JsonProcessor.cs:20-69 | requires a present content; appends the rendering exactly once: the new builder text is the old text followed by the rendering, so the old text stays a prefix and the length grows by the rendering's length |
| `ContentProcessors.StringBuilder.Append` | src/FluentAssertions.Web/Internal/ContentProcessors/JsonProcessor.cs:62-67 | the builder's text becomes its old text followed by the argument |
| `ContentProcessors.JsonProcessor.RenderingReparses` | src/FluentAssertions.Web/Internal/ContentProcessors/JsonProcessor.cs:40-63 | if the writer's output always parses back to the document written, the rendering parses to the same value as the body |
| `ContentProcessors.CanHandleIgnoresBody` | src/FluentAssertions.Web/Internal/ContentProcessors/JsonProcessor.cs:71-83 | two processors whose contents differ only in body and stream agree on CanHandle |
| `ContentProcessors.LengthAtThresholdAccepted` | src/FluentAssertions.Web/Internal/ContentProcessors/JsonProcessor.cs:81 | a JSON content whose declared length equals the threshold is claimed |
| `ContentProcessors.MediaTypeExamples` | src/FluentAssertions.Web/Internal/ContentProcessors/JsonProcessor.cs:79-82 | `Application/JSON` and `application/problem+json` are JSON media types; `text/plain`, `application/vnd.x+json` and an absent type are not |
| `Text.EqualsCaseInsensitive` | src/FluentAssertions.Web/Internal/ContentProcessors/JsonProcessor.cs:82 | two strings compare equal when they have the same length and the same characters after ASCII case folding; equal strings always compare equal |
| `Text.EqualsCaseInsensitiveIffLowered` | src/FluentAssertions.Web/Internal/ContentProcessors/JsonProcessor.cs:82 | comparing ignoring case is the same as comparing the case-folded strings |
| `Text.EqualsCaseInsensitiveIsEquivalence` | test/FluentAssertions.Web.Tests/Internal/JsonExtensionsTests.cs:86-102 | comparing ignoring case is reflexive, symmetric and transitive |
| `ContentAssertions.BeAs` | src/FluentAssertions.Web/HttpResponseContentAssertions.cs:51-99 | passes exactly when the options delegate, the subject and the model are non-null, the serializer succeeded and the equivalency check left no failures; on passing it wraps the same assertions object; it fails with the differences exactly when all checks before them passed and the list is non-empty; argument errors name only `options` or `expectedModel` |
| `ContentAssertions.MatchInContent` | src/FluentAssertions.Web/HttpResponseContentAssertions.cs:115-152 | passes exactly when the pattern and subject are non-null, the content is non-empty and the match left no failures; on passing it wraps the same assertions object; the only argument error names `expectedWildcardText`; a present pattern with a null subject fails with "found null"; it fails with the match failures exactly when all checks before them passed and the list is non-empty |
| `ContentAssertions.BeAsChecksOptionsFirst` | src/FluentAssertions.Web/HttpResponseContentAssertions.cs:53 | a null options delegate gives the `options` argument error whatever the other inputs |
| `ContentAssertions.BeAsChecksSubjectBeforeModel` | src/FluentAssertions.Web/HttpResponseContentAssertions.cs:55-63 | a null subject fails with "found null" even when the model is null; a null model with a subject gives the `expectedModel` argument error |
| `ContentAssertions.BeAsReportsParseFailure` | src/FluentAssertions.Web/HttpResponseContentAssertions.cs:67-73 | a serializer failure is reported with the model type and the error message verbatim, and the outcome does not depend on the equivalency failures |
| `ContentAssertions.BeAsNeverComparesWithoutOptions` | src/FluentAssertions.Web/HttpResponseContentAssertions.cs:79-86 | the outcome never depends on the failures of the comparison without options, so that branch is unreachable |
| `ContentAssertions.MatchInContentChecksPatternFirst` | src/FluentAssertions.Web/HttpResponseContentAssertions.cs:117-122 | a null pattern gives the argument error whatever the subject, content and match failures |
| `ContentAssertions.MatchInContentChecksSubjectBeforeContent` | src/FluentAssertions.Web/HttpResponseContentAssertions.cs:119-133 | with a pattern and a null subject, the verb fails with "found null" whatever the content and the match failures |
| `ContentAssertions.MatchInContentRejectsEmptyContent` | src/FluentAssertions.Web/HttpResponseContentAssertions.cs:124-133 | with a subject, null or empty content fails with the pattern named, whatever the pattern and the match failures |
| `ContentAssertions.GuardOrderDiffers` | src/FluentAssertions.Web/HttpResponseContentAssertions.cs:53-63 | with a null subject and a null argument, BeAs reports the null subject and MatchInContent reports the null pattern |
| `ContentAssertions.VerbsChainOnSameObject` | src/FluentAssertions.Web/HttpResponseContentAssertions.cs:98-151 | when both verbs pass they return the same constraint around the same assertions object |
| `JsonExtensions.FirstMatch` | test/FluentAssertions.Web.Tests/Internal/JsonExtensionsTests.cs:10-45 | a flat property list has a match exactly when some property's name equals the key ignoring case, and the match is the value of such a property |
| `JsonExtensions.FirstMatchIsEarliest` | test/FluentAssertions.Web.Tests/Internal/JsonExtensionsTests.cs:10-45 | when the k-th member matches and none before it does, the result is the k-th member's value |
| `JsonExtensions.FirstMatchAppend` | test/FluentAssertions.Web.Tests/Internal/JsonExtensionsTests.cs:10-26 | the first match in a concatenation is the first match of the front part if it has one, else of the rest |
| `JsonExtensions.FindByKey` | test/FluentAssertions.Web.Tests/Internal/JsonExtensionsTests.cs:10-197 | some value is found exactly when some property anywhere in the tree has a name equal to the key ignoring case, and the value found is such a property's value; it is the first one in document order (`FindIsFirstMatch`) |
| `JsonExtensions.FindInMembers` | test/FluentAssertions.Web.Tests/Internal/JsonExtensionsTests.cs:10-26 | over an object's members, the same as `FindByKey`, for the properties of the members and of everything nested in their values |
| `JsonExtensions.FindInItems` | test/FluentAssertions.Web.Tests/Internal/JsonExtensionsTests.cs:10-45 | over an array's items, the same as `FindByKey`, for the properties nested in the items |
| `JsonExtensions.FindIsFirstMatch` | test/FluentAssertions.Web.Tests/Internal/JsonExtensionsTests.cs:10-45 | the recursive tree search returns the first match in the document-order list of all properties |
| `JsonExtensions.HasKey` | test/FluentAssertions.Web.Tests/Internal/JsonExtensionsTests.cs:10-102 | true exactly when some property anywhere in the tree has a name equal to the key ignoring case |
| `JsonExtensions.Strings` | test/FluentAssertions.Web.Tests/Internal/JsonExtensionsTests.cs:105-121 | an array of strings gives exactly its strings, in order |
| `JsonExtensions.GetStringValuesByKey` | test/FluentAssertions.Web.Tests/Internal/JsonExtensionsTests.cs:105-157 | empty for a missing key; a string value gives a one-element sequence; an array of strings gives exactly its strings, in order |
| `JsonExtensions.GetChildrenKeys` | test/FluentAssertions.Web.Tests/Internal/JsonExtensionsTests.cs:160-197 | for an object value, exactly its direct keys, in document order (the order is chosen here; the tests compare without order); empty for a missing key or a value that is not an object |
| `JsonExtensions.FirstMatchCaseInsensitive` | test/FluentAssertions.Web.Tests/Internal/JsonExtensionsTests.cs:86-102 | keys equal ignoring case find the same property in a flat list |
| `JsonExtensions.QueriesIgnoreKeyCase` | test/FluentAssertions.Web.Tests/Internal/JsonExtensionsTests.cs:86-102 | keys equal ignoring case give the same search result, and the same answer from all three queries (the tests fix this for HasKey only) |
| `JsonExtensions.NestedMembersIncluded` | test/FluentAssertions.Web.Tests/Internal/JsonExtensionsTests.cs:10-26 | every property nested in a member's value is among the enclosing object's properties |
| `JsonExtensions.HasKeyFindsNestedKeys` | test/FluentAssertions.Web.Tests/Internal/JsonExtensionsTests.cs:10-26 | a key found in a child's value is found from the parent object |
| `JsonExtensions.HasKeyFindsKeyInChildObjectTest` | test/FluentAssertions.Web.Tests/Internal/JsonExtensionsTests.cs:9-26 | `HasKey("Author")` is true on a document whose `Author` key is inside the `errors` object |
| `JsonExtensions.HasKeyWithDifferentKeyTest` | test/FluentAssertions.Web.Tests/Internal/JsonExtensionsTests.cs:28-45 | `HasKey("Author")` is false on a document whose only nested key is `Comment` |
| `JsonExtensions.HasKeyWithEmptyKeyTests` | test/FluentAssertions.Web.Tests/Internal/JsonExtensionsTests.cs:47-83 | `HasKey("")` is true when an empty key exists and false when it does not |
| `JsonExtensions.HasKeyIgnoresCaseTest` | test/FluentAssertions.Web.Tests/Internal/JsonExtensionsTests.cs:85-102 | `HasKey("author")` is true on a document whose key is `Author` |
| `JsonExtensions.GetStringValuesByKeyTests` | test/FluentAssertions.Web.Tests/Internal/JsonExtensionsTests.cs:104-157 | the three GetStringValuesByKey tests: array value, missing key, single string value (a singleton, as the assertion says, not the empty result the test name says) |
| `JsonExtensions.GetChildrenKeysTests` | test/FluentAssertions.Web.Tests/Internal/JsonExtensionsTests.cs:159-197 | the two GetChildrenKeys tests: the direct keys `Author` and `Content`, and the single empty key |

## Left out

- JSON parsing, the indenting `Utf8JsonWriter` and its `JavaScriptEncoder`: library code, given to the processor as the functions `parse` and `indent`; a parse that throws is a `parse` that returns None.
- Stream I/O: `ReadAsStreamAsync`, `ReadAsStringAsync`, seeking and reading the memory stream are not modelled. The body is one string, read the same way by the parser and the fallback. A null stream is the `hasStream` flag.
- `ProcessorBase`, the chain of processors and its fallback processor, are not part of this model.
- `MaximumReadableBytes` is a constructor parameter, because its value is not part of this model. The declared length is an input, because `TryGetContentLength` is not part of this model either.
- `EqualsCaseInsensitive` is modelled as ASCII case folding. A null media type never compares as JSON.
- `JNum` holds an integer: number syntax, fractions and exponents are the parser's business and never reach these properties.
- FluentAssertions itself is not modelled: `BeEquivalentTo`, the wildcard `Match`, `AssertionScope` and failure collection. Their failure lists are inputs to the verbs.
- When an outer assertion scope collects failures, `FailWith` does not throw and later checks still run. The model covers only the throwing case, where the first failure decides.
- Messages, `because` phrases and `{context:response}` formatting are left out. A `Failure` carries only the data its message is built from.
- The serializer adapters and their coercions are not modelled: enums, quoted numbers, empty strings and the yes/no boolean converter. The serializer is an input `(success, errorMessage)`.
- `HaveContent` and the test fixtures' global configuration are not part of this model.
- `JsonExtensions.GetStringValuesByKey`: for an array value, items that are not strings are skipped. The tests never use such an array, so this choice is not pinned down by them.
- `JsonExtensions.FindByKey`: when a key occurs more than once, the first property in document order wins. The tests never repeat a key, so this is a choice of the model.
- `JsonExtensions.FindInItems`: the search also descends into arrays. The tests never put an object inside an array, so this is a choice of the model.
- `JsonExtensions.GetStringValuesByKey` and `JsonExtensions.GetChildrenKeys` look the key up ignoring case, as `HasKey` does. The tests check case-insensitive lookup for `HasKey` only, so this is a choice of the model.
- `JsonExtensions.GetChildrenKeys` returns the keys in document order. The tests compare without regard to order, so the order is a choice of the model.
- `JsonExtensions.GetStringValuesByKey` gives an empty result when the found value is not a string or an array, and `JsonExtensions.GetChildrenKeys` does when it is not an object. The tests never use such values, so these results are a choice of the model.
