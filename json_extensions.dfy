/**
 * Key queries over a parsed JSON object: HasKey, GetStringValuesByKey and
 * GetChildrenKeys. Their implementation file is not part of this model. Their
 * unit tests fix part of their behaviour; the rest is chosen here: a key is
 * looked up anywhere in the tree, arrays included, and the match is the first
 * property in document order whose name equals the key ignoring case.
 */
module JsonExtensions {
  import opened JsonTree
  import opened Text

  /** The value of the first property, in document order, whose name equals `key` ignoring case. */
  function FindByKey(j: Json, key: string): (r: Option<Json>)
    ensures r.Some? <==> exists m :: m in AllMembers(j) && EqualsCaseInsensitive(m.key, key)
    ensures r.Some? ==> exists m :: m in AllMembers(j) && EqualsCaseInsensitive(m.key, key) && m.value == r.value
    decreases j
  {
    match j
    case JObj(members) => FindInMembers(members, key)
    case JArr(items) => FindInItems(items, key)
    case _ => None
  }

  /** A property is visited before the properties nested in its value, and those before its siblings. */
  function FindInMembers(members: seq<Member>, key: string): (r: Option<Json>)
    ensures r.Some? <==> exists m :: m in MembersOfAll(members) && EqualsCaseInsensitive(m.key, key)
    ensures r.Some? ==> exists m :: m in MembersOfAll(members) && EqualsCaseInsensitive(m.key, key) && m.value == r.value
    decreases members
  {
    if members == [] then None
    else if EqualsCaseInsensitive(members[0].key, key) then Some(members[0].value)
    else match FindByKey(members[0].value, key)
      case Some(v) => Some(v)
      case None => FindInMembers(members[1..], key)
  }

  function FindInItems(items: seq<Json>, key: string): (r: Option<Json>)
    ensures r.Some? <==> exists m :: m in MembersOfItems(items) && EqualsCaseInsensitive(m.key, key)
    ensures r.Some? ==> exists m :: m in MembersOfItems(items) && EqualsCaseInsensitive(m.key, key) && m.value == r.value
    decreases items
  {
    if items == [] then None
    else match FindByKey(items[0], key)
      case Some(v) => Some(v)
      case None => FindInItems(items[1..], key)
  }

  // Reference definition: every property of the tree, flattened in document order.

  function AllMembers(j: Json): seq<Member>
    decreases j
  {
    match j
    case JObj(members) => MembersOfAll(members)
    case JArr(items) => MembersOfItems(items)
    case _ => []
  }

  function MembersOfAll(members: seq<Member>): seq<Member>
    decreases members
  {
    if members == [] then []
    else [members[0]] + AllMembers(members[0].value) + MembersOfAll(members[1..])
  }

  function MembersOfItems(items: seq<Json>): seq<Member>
    decreases items
  {
    if items == [] then [] else AllMembers(items[0]) + MembersOfItems(items[1..])
  }

  /** The value of the first member of a flat list whose name equals `key` ignoring case. */
  function FirstMatch(ms: seq<Member>, key: string): (r: Option<Json>)
    ensures r.Some? <==> exists m :: m in ms && EqualsCaseInsensitive(m.key, key)
    ensures r.Some? ==> exists m :: m in ms && EqualsCaseInsensitive(m.key, key) && m.value == r.value
  {
    if ms == [] then None
    else if EqualsCaseInsensitive(ms[0].key, key) then Some(ms[0].value)
    else
      assert forall m :: m in ms ==> m == ms[0] || m in ms[1..];
      FirstMatch(ms[1..], key)
  }

  /** The result is the value of the earliest matching member. */
  lemma {:induction false} FirstMatchIsEarliest(ms: seq<Member>, key: string, k: nat)
    requires k < |ms| && EqualsCaseInsensitive(ms[k].key, key)
    requires forall i :: 0 <= i < k ==> !EqualsCaseInsensitive(ms[i].key, key)
    ensures FirstMatch(ms, key) == Some(ms[k].value)
  {
    if k > 0 {
      FirstMatchIsEarliest(ms[1..], key, k - 1);
    }
  }

  lemma {:induction false} FirstMatchAppend(a: seq<Member>, b: seq<Member>, key: string)
    ensures FirstMatch(a + b, key) == if FirstMatch(a, key).Some? then FirstMatch(a, key) else FirstMatch(b, key)
  {
    if a != [] {
      assert (a + b)[0] == a[0];
      assert (a + b)[1..] == a[1..] + b;
      FirstMatchAppend(a[1..], b, key);
    } else {
      assert a + b == b;
    }
  }

  /** The tree search finds exactly what scanning the flattened property list finds. */
  lemma {:induction false} FindIsFirstMatch(j: Json, key: string)
    ensures FindByKey(j, key) == FirstMatch(AllMembers(j), key)
    decreases j
  {
    match j
    case JObj(members) => FindInMembersIsFirstMatch(members, key);
    case JArr(items) => FindInItemsIsFirstMatch(items, key);
    case _ =>
  }

  lemma {:induction false} FindInMembersIsFirstMatch(members: seq<Member>, key: string)
    ensures FindInMembers(members, key) == FirstMatch(MembersOfAll(members), key)
    decreases members
  {
    if members != [] {
      var m := members[0];
      FindIsFirstMatch(m.value, key);
      FindInMembersIsFirstMatch(members[1..], key);
      FirstMatchAppend(AllMembers(m.value), MembersOfAll(members[1..]), key);
      assert MembersOfAll(members) == [m] + (AllMembers(m.value) + MembersOfAll(members[1..]));
    }
  }

  lemma {:induction false} FindInItemsIsFirstMatch(items: seq<Json>, key: string)
    ensures FindInItems(items, key) == FirstMatch(MembersOfItems(items), key)
    decreases items
  {
    if items != [] {
      FindIsFirstMatch(items[0], key);
      FindInItemsIsFirstMatch(items[1..], key);
      FirstMatchAppend(AllMembers(items[0]), MembersOfItems(items[1..]), key);
    }
  }

  /** Whether some object anywhere in the tree has a property named `key`, ignoring case. */
  function HasKey(j: Json, key: string): (r: bool)
    ensures r <==> exists m :: m in AllMembers(j) && EqualsCaseInsensitive(m.key, key)
  {
    FindIsFirstMatch(j, key);
    FindByKey(j, key).Some?
  }

  /** The strings among the items, in order. */
  function Strings(items: seq<Json>): (r: seq<string>)
    ensures |r| <= |items|
    ensures (forall i :: 0 <= i < |items| ==> items[i].JStr?) ==>
              |r| == |items| && forall i :: 0 <= i < |items| ==> r[i] == items[i].s
  {
    if items == [] then []
    else if items[0].JStr? then [items[0].s] + Strings(items[1..])
    else Strings(items[1..])
  }

  /**
   * The string values of the property named `key`: the strings of an array
   * value, in order, or the one string of a string value; empty otherwise.
   */
  function GetStringValuesByKey(j: Json, key: string): (r: seq<string>)
    ensures !HasKey(j, key) ==> r == []
    ensures r != [] ==> HasKey(j, key)
    ensures var found := FindByKey(j, key);
      found.Some? && found.value.JStr? ==> r == [found.value.s]
    ensures var found := FindByKey(j, key);
      found.Some? && found.value.JArr? && (forall i :: 0 <= i < |found.value.items| ==> found.value.items[i].JStr?) ==>
        |r| == |found.value.items| && forall i :: 0 <= i < |r| ==> r[i] == found.value.items[i].s
  {
    match FindByKey(j, key)
    case Some(JArr(items)) => Strings(items)
    case Some(JStr(s)) => [s]
    case _ => []
  }

  /** The names of the direct properties of the object named `key`, in order; empty when there is none. */
  function GetChildrenKeys(j: Json, key: string): (r: seq<string>)
    ensures !HasKey(j, key) ==> r == []
    ensures var found := FindByKey(j, key);
      found.Some? && found.value.JObj? ==>
        |r| == |found.value.members| && forall i :: 0 <= i < |r| ==> r[i] == found.value.members[i].key
    ensures var found := FindByKey(j, key);
      found.None? || !found.value.JObj? ==> r == []
  {
    match FindByKey(j, key)
    case Some(JObj(members)) => seq(|members|, i requires 0 <= i < |members| => members[i].key)
    case _ => []
  }

  /** Keys that are equal ignoring case find the same property. */
  lemma {:induction false} FirstMatchCaseInsensitive(ms: seq<Member>, key: string, other: string)
    requires EqualsCaseInsensitive(key, other)
    ensures FirstMatch(ms, key) == FirstMatch(ms, other)
  {
    if ms != [] {
      EqualsCaseInsensitiveIsEquivalence(ms[0].key, key, other);
      EqualsCaseInsensitiveIsEquivalence(ms[0].key, other, key);
      FirstMatchCaseInsensitive(ms[1..], key, other);
    }
  }

  /** HasKey and the value queries do not depend on the case of the key. */
  lemma QueriesIgnoreKeyCase(j: Json, key: string, other: string)
    requires EqualsCaseInsensitive(key, other)
    ensures FindByKey(j, key) == FindByKey(j, other)
    ensures HasKey(j, key) == HasKey(j, other)
    ensures GetStringValuesByKey(j, key) == GetStringValuesByKey(j, other)
    ensures GetChildrenKeys(j, key) == GetChildrenKeys(j, other)
  {
    FindIsFirstMatch(j, key);
    FindIsFirstMatch(j, other);
    FirstMatchCaseInsensitive(AllMembers(j), key, other);
  }

  /** Every property nested in the i-th member's value is a property of the enclosing object. */
  lemma {:induction false} NestedMembersIncluded(members: seq<Member>, i: nat, m: Member)
    requires i < |members|
    requires m in AllMembers(members[i].value)
    ensures m in MembersOfAll(members)
    decreases i
  {
    if i > 0 {
      NestedMembersIncluded(members[1..], i - 1, m);
    }
  }

  /** A key inside a child object is found from the parent, not only at the top level. */
  lemma HasKeyFindsNestedKeys(members: seq<Member>, i: nat, key: string)
    requires i < |members|
    requires HasKey(members[i].value, key)
    ensures HasKey(JObj(members), key)
  {
    var m :| m in AllMembers(members[i].value) && EqualsCaseInsensitive(m.key, key);
    NestedMembersIncluded(members, i, m);
  }

  // The unit tests of the queries, each stated for the document it uses.

  const AuthorMessage: string := "The Author field is required."
  const CommentMessage: string := "The Comment field is required."
  const ContentMessage: string := "The Content field is required."

  /** {"errors": {<field>: [<message>]}} */
  function ErrorsDocument(field: string, message: string): Json
  {
    JObj([Member("errors", JObj([Member(field, JArr([JStr(message)]))]))])
  }

  /** The search on an error document: "errors" itself, else the field inside it, else nothing. */
  lemma FindInErrorsDocument(field: string, value: Json, key: string)
    requires !value.JObj? && !value.JArr?
    ensures FindByKey(JObj([Member("errors", JObj([Member(field, value)]))]), key) ==
      if EqualsCaseInsensitive("errors", key) then Some(JObj([Member(field, value)]))
      else if EqualsCaseInsensitive(field, key) then Some(value)
      else None
  {
    var inner := [Member(field, value)];
    assert FindByKey(value, key) == None;
    assert FindInMembers(inner[1..], key) == None;
    assert FindInMembers(inner, key) == if EqualsCaseInsensitive(field, key) then Some(value) else None;
    var outer := [Member("errors", JObj(inner))];
    assert FindInMembers(outer[1..], key) == None;
  }

  /** The same search when the field holds a one-string array. */
  lemma FindInErrorsDocumentArray(field: string, message: string, key: string)
    ensures FindByKey(ErrorsDocument(field, message), key) ==
      if EqualsCaseInsensitive("errors", key) then Some(JObj([Member(field, JArr([JStr(message)]))]))
      else if EqualsCaseInsensitive(field, key) then Some(JArr([JStr(message)]))
      else None
  {
    var items := [JStr(message)];
    assert FindByKey(items[0], key) == None;
    assert FindInItems(items[1..], key) == None;
    assert FindByKey(JArr(items), key) == None;
    var inner := [Member(field, JArr(items))];
    assert FindInMembers(inner[1..], key) == None;
    assert FindInMembers(inner, key) == if EqualsCaseInsensitive(field, key) then Some(JArr(items)) else None;
    var outer := [Member("errors", JObj(inner))];
    assert FindInMembers(outer[1..], key) == None;
    assert ErrorsDocument(field, message) == JObj(outer);
  }

  lemma HasKeyFindsKeyInChildObjectTest()
    ensures HasKey(ErrorsDocument("Author", AuthorMessage), "Author")
  {
    var upper := "Author";
    FindInErrorsDocumentArray(upper, AuthorMessage, upper);
  }

  lemma HasKeyWithDifferentKeyTest()
    ensures !HasKey(ErrorsDocument("Comment", CommentMessage), "Author")
  {
    var upper := "Author";
    FindInErrorsDocumentArray("Comment", CommentMessage, upper);
    assert !EqualsCaseInsensitive("errors", upper) by {
      assert Lower("errors"[0]) != Lower(upper[0]);
    }
    assert !EqualsCaseInsensitive("Comment", upper);
  }

  lemma HasKeyWithEmptyKeyTests()
    ensures HasKey(ErrorsDocument("", "A non-empty request body is required."), "")
    ensures !HasKey(ErrorsDocument("Comment", CommentMessage), "")
  {
    FindInErrorsDocumentArray("", "A non-empty request body is required.", "");
    FindInErrorsDocumentArray("Comment", CommentMessage, "");
    assert !EqualsCaseInsensitive("errors", "");
    assert !EqualsCaseInsensitive("Comment", "");
  }

  lemma HasKeyIgnoresCaseTest()
    ensures HasKey(ErrorsDocument("Author", AuthorMessage), "author")
  {
    var lower, upper := "author", "Author";
    FindInErrorsDocumentArray(upper, AuthorMessage, lower);
    assert EqualsCaseInsensitive(upper, lower) by {
      forall i | 0 <= i < |upper| ensures Lower(upper[i]) == Lower(lower[i]) {
        assert i == 0 || upper[i] == lower[i];
      }
    }
  }

  lemma GetStringValuesByKeyTests()
    ensures GetStringValuesByKey(ErrorsDocument("Author", AuthorMessage), "Author") == [AuthorMessage]
    ensures GetStringValuesByKey(ErrorsDocument("Author", AuthorMessage), "Comment") == []
    ensures GetStringValuesByKey(JObj([Member("errors", JObj([Member("Author", JStr(AuthorMessage))]))]), "Author")
            == [AuthorMessage]
  {
    var author := "Author";
    FindInErrorsDocumentArray(author, AuthorMessage, author);
    FindInErrorsDocumentArray(author, AuthorMessage, "Comment");
    FindInErrorsDocument(author, JStr(AuthorMessage), author);
    assert !EqualsCaseInsensitive("errors", author) by {
      assert Lower("errors"[0]) != Lower(author[0]);
    }
    assert !EqualsCaseInsensitive("errors", "Comment");
    assert !EqualsCaseInsensitive(author, "Comment");
    assert Strings([JStr(AuthorMessage)]) == [AuthorMessage];
  }

  lemma GetChildrenKeysTests()
    ensures GetChildrenKeys(JObj([Member("errors", JObj([Member("Author", JArr([JStr(AuthorMessage)])),
                                                        Member("Content", JArr([JStr(ContentMessage)]))]))]),
                            "errors")
            == ["Author", "Content"]
    ensures GetChildrenKeys(ErrorsDocument("", AuthorMessage), "errors") == [""]
  {
    var errorsKey := "errors";
    EqualsCaseInsensitiveIsEquivalence(errorsKey, errorsKey, errorsKey);
    var children := [Member("Author", JArr([JStr(AuthorMessage)])), Member("Content", JArr([JStr(ContentMessage)]))];
    assert FindInMembers([Member(errorsKey, JObj(children))], errorsKey) == Some(JObj(children));
    var keys := GetChildrenKeys(JObj([Member(errorsKey, JObj(children))]), errorsKey);
    assert |keys| == 2 && keys[0] == "Author" && keys[1] == "Content";
  }
}
