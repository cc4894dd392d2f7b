/**
 * The JSON content processor: it decides whether an HTTP content can be shown
 * as JSON in a failure message, and renders it by appending either the
 * indented re-serialisation of the parsed document or, when the body does not
 * parse, the raw body text.
 *
 * The JSON parser (which allows trailing commas) and the indenting writer are
 * library code; they are given to the processor as the functions `parse` and
 * `indent`. A parse that throws is a `parse` that returns None.
 */
module ContentProcessors {
  import opened JsonTree
  import opened Text

  /**
   * What the processor can see of an HTTP content: its body text, whether
   * reading it as a stream gives a stream at all, whether it was disposed,
   * its declared length and its declared media type (None when absent).
   */
  datatype HttpContent = HttpContent(
    body: string,
    hasStream: bool,
    disposed: bool,
    contentLength: int,
    mediaType: Option<string>)

  const JsonMediaType: string := "application/json"
  const ProblemJsonMediaType: string := "application/problem+json"

  /** Reference definition of the JSON media types: after case folding, one of the two names. */
  predicate IsJsonMediaType(mediaType: Option<string>)
  {
    mediaType.Some? &&
    (ToLower(mediaType.value) == JsonMediaType || ToLower(mediaType.value) == ProblemJsonMediaType)
  }

  /** The caller's StringBuilder: text that can only be appended to. */
  class StringBuilder {
    var text: string

    constructor (initial: string)
      ensures text == initial
    {
      text := initial;
    }

    method Append(s: string)
      modifies this
      ensures text == old(text) + s
    {
      text := text + s;
    }
  }

  class JsonProcessor {
    /** The content handed to the processor; None models a null content. */
    const httpContent: Option<HttpContent>
    /** The configured maximum number of bytes that is rendered. */
    const maximumReadableBytes: int
    /** The JSON parser, None when it fails. */
    const parse: string -> Option<Json>
    /** The indenting JSON writer. */
    const indent: Json -> string

    constructor (httpContent: Option<HttpContent>, maximumReadableBytes: int,
                 parse: string -> Option<Json>, indent: Json -> string)
      ensures this.httpContent == httpContent
      ensures this.maximumReadableBytes == maximumReadableBytes
      ensures this.parse == parse && this.indent == indent
    {
      this.httpContent := httpContent;
      this.maximumReadableBytes := maximumReadableBytes;
      this.parse := parse;
      this.indent := indent;
    }

    /**
     * The processor claims a present, undisposed content whose declared length
     * is at most the threshold and whose media type is a JSON media type.
     */
    function CanHandle(): (r: bool)
      ensures httpContent.None? ==> !r
      ensures httpContent.Some? && httpContent.value.disposed ==> !r
      ensures httpContent.Some? && httpContent.value.contentLength > maximumReadableBytes ==> !r
      ensures r <==>
        httpContent.Some? && !httpContent.value.disposed &&
        httpContent.value.contentLength <= maximumReadableBytes &&
        IsJsonMediaType(httpContent.value.mediaType)
    {
      if httpContent.None? || httpContent.value.disposed then
        false
      else
        var mediaType := httpContent.value.mediaType;
        httpContent.value.contentLength <= maximumReadableBytes && MediaTypeIsJson(mediaType)
    }

    /** The media type comparison of CanHandle, through EqualsCaseInsensitive. */
    static predicate MediaTypeIsJson(mediaType: Option<string>)
      ensures MediaTypeIsJson(mediaType) <==> IsJsonMediaType(mediaType)
    {
      if mediaType.None? then false
      else
        var m := mediaType.value;
        LowercaseNames();
        EqualsCaseInsensitiveIffLowered(m, JsonMediaType);
        EqualsCaseInsensitiveIffLowered(m, ProblemJsonMediaType);
        EqualsCaseInsensitive(m, JsonMediaType) || EqualsCaseInsensitive(m, ProblemJsonMediaType)
    }

    /** Both media type names are already in lower case. */
    static lemma LowercaseNames()
      ensures ToLower(JsonMediaType) == JsonMediaType
      ensures ToLower(ProblemJsonMediaType) == ProblemJsonMediaType
    {
      HasNoUpper(JsonMediaType);
      ToLowerOfLowercase(JsonMediaType);
      HasNoUpper(ProblemJsonMediaType);
      ToLowerOfLowercase(ProblemJsonMediaType);
    }

    /** A string drawn from lower-case letters, '/' and '+' has no upper-case letter. */
    static lemma HasNoUpper(s: string)
      requires forall i :: 0 <= i < |s| ==> s[i] in "abcdefghijklmnopqrstuvwxyz/+"
      ensures forall i :: 0 <= i < |s| ==> !('A' <= s[i] <= 'Z')
    {
    }

    /**
     * The text that Handle appends: the indented document when the body gives
     * a stream that parses, the raw body otherwise.
     */
    function Rendering(): (r: string)
      requires httpContent.Some?
      ensures httpContent.value.hasStream && parse(httpContent.value.body).Some? ==>
                r == indent(parse(httpContent.value.body).value)
      ensures !httpContent.value.hasStream || parse(httpContent.value.body).None? ==>
                r == httpContent.value.body
    {
      var content := httpContent.value;
      if content.hasStream && parse(content.body).Some? then indent(parse(content.body).value)
      else content.body
    }

    /** Appends the rendering of the content to the builder, once, and changes nothing else. */
    method Handle(builder: StringBuilder)
      requires httpContent.Some?
      modifies builder
      ensures builder.text == old(builder.text) + Rendering()
      ensures old(builder.text) <= builder.text
      ensures |builder.text| == |old(builder.text)| + |Rendering()|
    {
      var content := httpContent.value;
      var jsonDocument: Option<Json> := None;
      if content.hasStream {
        jsonDocument := parse(content.body);
      }
      if jsonDocument.Some? {
        var jsonString := indent(jsonDocument.value);
        builder.Append(jsonString);
      } else {
        builder.Append(content.body);
      }
    }

    /**
     * When the writer's output always parses back to the document it wrote,
     * the rendering parses to the same value as the body itself did.
     */
    lemma RenderingReparses()
      requires httpContent.Some?
      requires forall j :: parse(indent(j)) == Some(j)
      ensures parse(Rendering()) == parse(httpContent.value.body)
    {
    }
  }

  /** CanHandle looks at the metadata only: two processors that differ only in the body agree. */
  lemma CanHandleIgnoresBody(p: JsonProcessor, q: JsonProcessor)
    requires p.maximumReadableBytes == q.maximumReadableBytes
    requires p.httpContent.None? <==> q.httpContent.None?
    requires p.httpContent.Some? ==>
      p.httpContent.value.disposed == q.httpContent.value.disposed &&
      p.httpContent.value.contentLength == q.httpContent.value.contentLength &&
      p.httpContent.value.mediaType == q.httpContent.value.mediaType
    ensures p.CanHandle() == q.CanHandle()
  {
  }

  /** A declared length equal to the threshold is still accepted. */
  lemma LengthAtThresholdAccepted(p: JsonProcessor)
    requires p.httpContent.Some? && !p.httpContent.value.disposed
    requires p.httpContent.value.mediaType == Some(JsonMediaType)
    requires p.httpContent.value.contentLength == p.maximumReadableBytes
    ensures p.CanHandle()
  {
    JsonProcessor.LowercaseNames();
  }

  /** Which media types are JSON: case does not matter, other types and absent types are rejected. */
  lemma MediaTypeExamples()
    ensures IsJsonMediaType(Some("Application/JSON"))
    ensures IsJsonMediaType(Some("application/problem+json"))
    ensures !IsJsonMediaType(Some("text/plain"))
    ensures !IsJsonMediaType(Some("application/vnd.x+json"))
    ensures !IsJsonMediaType(None)
  {
    JsonProcessor.LowercaseNames();
    var upper := "Application/JSON";
    assert ToLower(upper) == JsonMediaType by {
      EqualsCaseInsensitiveIffLowered(upper, JsonMediaType);
    }
    assert |ToLower("text/plain")| != |JsonMediaType|;
    assert ToLower("application/vnd.x+json")[12] == 'v';
  }
}
