/** What the text of a JSON Reference says: the part before the first `#` and the pointer after it. */
module References {
  import opened Wrappers
  import opened Json
  import opened JsonPointer
  import opened Strings
  import opened Escaping
  import opened Keywords

  lemma FirstHash(uri: string, fragment: string)
    requires '#' !in uri
    ensures IndexFrom(uri + "#" + fragment, '#', 0) == |uri|
    ensures IndexFrom(uri, '#', 0) == |uri|
  {
    var s := uri + "#" + fragment;
    assert s[|uri|] == '#';
    assert forall k :: 0 <= k < |uri| ==> s[k] == uri[k] && uri[k] in uri;
  }

  /** With a `#`: the document named before it, or this one if nothing is, and the pointer after it
      without slashes at the end. */
  lemma FragmentReference(node: Value, uri: string, fragment: string)
    requires node.Object? && Find(node.members, "$ref") == Some(Str(uri + "#" + fragment)) && '#' !in uri
    ensures ReadReference(node) == Reference(if uri == "" then None else Some(uri), TrimSlashes(fragment))
  {
    hide TrimSlashes, Find, IndexFrom;
    var s := uri + "#" + fragment;
    FirstHash(uri, fragment);
    assert s[..|uri|] == uri && s[|uri| + 1..] == fragment;
  }

  /** Without: the whole of another document. */
  lemma WholeReference(node: Value, uri: string)
    requires node.Object? && Find(node.members, "$ref") == Some(Str(uri)) && '#' !in uri
    ensures ReadReference(node) == Reference(Some(uri), "")
  {
    hide Find, IndexFrom;
    FirstHash(uri, "");
  }

  /** Only a `$ref` whose value is text is a reference; any other value is an error. */
  lemma NotText(node: Value)
    ensures !node.Object? || Find(node.members, "$ref").None? ==> ReadReference(node) == NoReference
    ensures node.Object? && Find(node.members, "$ref").Some? && !Find(node.members, "$ref").value.Str? ==>
      ReadReference(node) == BadReference
  {
    hide Find;
  }

  /** Slashes are trimmed only if there are some at the end. */
  lemma NothingTrimmed(s: string)
    requires s == "" || s[|s| - 1] != '/'
    ensures TrimSlashes(s) == s
  {
  }

  /** A reference within the document to a member of an object it holds, the name of that member escaped,
      leads to that member. */
  lemma EscapedReferenceLeads(x: Externals, doc: Value, v: Value, path: string, ms: seq<Member>, name: string, n: Value)
    requires v.Object? && Find(v.members, "$ref") == Some(Str("#" + path + "/" + Escape(name))) && name != ""
    requires Resolve(doc, path) == Some(Object(ms)) && Find(ms, name) == Some(n) && ReadReference(n) == NoReference
    requires Pointers(v) <= Pointers(doc)
    ensures Chase(x, doc, v, {}, false) == Concrete(n)
  {
    hide Escape, Resolve, Find, Pointers, TrimSlashes, ReadReference, Chase, Step, Overflows, TooLarge;
    var pointer := path + "/" + Escape(name);
    EscapedReference(v, path, name);
    ResolveEscaped(doc, path, Object(ms), name);
    StepIntoObject(ms, name);
    OneReference(x, doc, v, pointer, n);
  }

  lemma EscapedReference(v: Value, path: string, name: string)
    requires v.Object? && Find(v.members, "$ref") == Some(Str("#" + path + "/" + Escape(name))) && name != ""
    ensures ReadReference(v) == Reference(None, path + "/" + Escape(name))
  {
    hide Escape, Find, TrimSlashes, ReadReference;
    var pointer := path + "/" + Escape(name);
    assert "" + "#" + pointer == "#" + path + "/" + Escape(name);
    FragmentReference(v, "", pointer);
    EscapeHasNoSlash(name);
    assert pointer[|pointer| - 1] == Escape(name)[|Escape(name)| - 1];
    NothingTrimmed(pointer);
  }

  lemma OneReference(x: Externals, doc: Value, v: Value, pointer: string, n: Value)
    requires ReadReference(v) == Reference(None, pointer) && Resolve(doc, pointer) == Some(n)
    requires ReadReference(n) == NoReference && Pointers(v) <= Pointers(doc)
    ensures Chase(x, doc, v, {}, false) == Concrete(n)
  {
    hide Resolve, Pointers, ReadReference;
    ResolveBelow(doc, pointer);
    assert Chase(x, doc, n, {} + {pointer}, false) == Concrete(n);
  }

  lemma StepIntoObject(ms: seq<Member>, name: string)
    requires name != ""
    ensures Step(Object(ms), name) == Find(ms, name)
  {
  }

  /** What counts as an absolute URI: a scheme's `://` anywhere. */
  lemma AbsoluteIs(before: string, after: string)
    ensures IsAbsolute(before + "://" + after)
  {
    var s := before + "://" + after;
    assert s[|before|..] == "://" + after;
  }

  lemma RelativeIs(uri: string)
    requires ':' !in uri
    ensures !IsAbsolute(uri)
  {
    forall k | 0 <= k <= |uri| ensures !("://" <= uri[k..]) {
      assert k < |uri| ==> uri[k..][0] == uri[k] && uri[k] in uri;
    }
  }

  /** The cache key of a reference is the URI with the pointer after it. */
  lemma KeyIs(uri: string, pointer: string)
    ensures CacheKey(Some(uri), pointer) == uri + pointer && CacheKey(None, pointer) == pointer
  {
  }
}
