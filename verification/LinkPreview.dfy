/**
 Link previews: one metadata record filled in by a walk over a parsed HTML document.
 */
module LinkPreview {

  datatype Attribute = Attribute(key: string, val: string)

  /** `data` is the tag name of an element and the text of a text node. */
  datatype Node = Node(isElement: bool, data: string, attrs: seq<Attribute>, children: seq<Node>)

  datatype Metadata = Metadata(
    title: string, description: string, imageURL: string, siteName: string, faviconURL: string)

  const NOTHING := Metadata("", "", "", "", "")

  // ---------- What one node offers ----------

  /** The last attribute of that name counts. */
  function AttributeValue(attrs: seq<Attribute>, key: string): string
    decreases |attrs|
  {
    if attrs == [] then ""
    else
      var last := attrs[|attrs| - 1];
      if last.key == key then last.val else AttributeValue(attrs[..|attrs| - 1], key)
  }

  predicate IsTag(n: Node, tag: string) {
    n.isElement && n.data == tag
  }

  /** The content of a `meta` element whose `key` attribute has the given value. */
  function MetaContent(n: Node, key: string, val: string): string {
    if IsTag(n, "meta") && AttributeValue(n.attrs, key) == val then AttributeValue(n.attrs, "content") else ""
  }

  function OgTitle(n: Node): string {
    MetaContent(n, "property", "og:title")
  }

  function FallbackTitle(n: Node): string {
    if IsTag(n, "title") then (if n.children == [] then "" else n.children[0].data)
    else MetaContent(n, "name", "twitter:title")
  }

  function OgDescription(n: Node): string {
    MetaContent(n, "property", "og:description")
  }

  function FallbackDescription(n: Node): string {
    if AttributeValue(n.attrs, "name") == "description"
    then MetaContent(n, "name", "description")
    else MetaContent(n, "name", "twitter:description")
  }

  function OgImage(n: Node): string {
    MetaContent(n, "property", "og:image")
  }

  function FallbackImage(n: Node): string {
    MetaContent(n, "name", "twitter:image")
  }

  function OgSiteName(n: Node): string {
    MetaContent(n, "property", "og:site_name")
  }

  function Icon(n: Node): string {
    if IsTag(n, "link") && AttributeValue(n.attrs, "rel") in {"icon", "shortcut icon"}
    then AttributeValue(n.attrs, "href") else ""
  }

  function NoFallback(n: Node): string {
    ""
  }

  /** The last attribute of that name has that value. */
  ghost predicate HasAttribute(attrs: seq<Attribute>, key: string, val: string) {
    exists i: nat :: IsLastOf(attrs, i, key, val)
  }

  ghost predicate IsLastOf(attrs: seq<Attribute>, i: nat, key: string, val: string) {
    i < |attrs| && attrs[i] == Attribute(key, val) && forall j :: i < j < |attrs| ==> attrs[j].key != key
  }

  lemma HasAttributeNext(attrs: seq<Attribute>, last: Attribute, key: string, val: string)
    ensures HasAttribute(attrs + [last], key, val) <==>
            if last.key == key then last.val == val else HasAttribute(attrs, key, val)
  {
    var all := attrs + [last];
    assert all[|attrs|] == last && forall i :: 0 <= i < |attrs| ==> all[i] == attrs[i];
    assert last.key == key && last.val == val ==> IsLastOf(all, |attrs|, key, val);
    if last.key != key {
      forall i: nat
        ensures IsLastOf(all, i, key, val) <==> IsLastOf(attrs, i, key, val)
      {
      }
    }
  }

  lemma {:induction false} AttributeValueIsLast(attrs: seq<Attribute>, key: string, val: string)
    requires val != ""
    ensures AttributeValue(attrs, key) == val <==> HasAttribute(attrs, key, val)
    decreases |attrs|
  {
    if attrs != [] {
      var front, last := attrs[..|attrs| - 1], attrs[|attrs| - 1];
      AttributeValueIsLast(front, key, val);
      assert attrs == front + [last];
      HasAttributeNext(front, last, key, val);
    }
  }

  /** A `meta` element with that attribute and that content. */
  ghost predicate IsMeta(n: Node, key: string, val: string, content: string) {
    n.isElement && n.data == "meta" && HasAttribute(n.attrs, key, val) && HasAttribute(n.attrs, "content", content)
  }

  lemma {:induction false} MetaContentIff(n: Node, key: string, val: string, content: string)
    requires content != "" && val != ""
    ensures MetaContent(n, key, val) == content <==> IsMeta(n, key, val, content)
  {
    AttributeValueIsLast(n.attrs, key, val);
    AttributeValueIsLast(n.attrs, "content", content);
  }

  /** Which nodes offer a value to which field. */
  lemma {:induction false} OffersIff(n: Node, v: string)
    requires v != ""
    ensures OgTitle(n) == v <==> IsMeta(n, "property", "og:title", v)
    ensures OgDescription(n) == v <==> IsMeta(n, "property", "og:description", v)
    ensures OgImage(n) == v <==> IsMeta(n, "property", "og:image", v)
    ensures OgSiteName(n) == v <==> IsMeta(n, "property", "og:site_name", v)
    ensures FallbackTitle(n) == v <==>
            || (n.isElement && n.data == "title" && n.children != [] && n.children[0].data == v)
            || IsMeta(n, "name", "twitter:title", v)
    ensures FallbackDescription(n) == v <==>
            IsMeta(n, "name", "description", v) || IsMeta(n, "name", "twitter:description", v)
    ensures FallbackImage(n) == v <==> IsMeta(n, "name", "twitter:image", v)
  {
    MetaContentIff(n, "property", "og:title", v);
    MetaContentIff(n, "property", "og:description", v);
    MetaContentIff(n, "property", "og:image", v);
    MetaContentIff(n, "property", "og:site_name", v);
    MetaContentIff(n, "name", "twitter:title", v);
    MetaContentIff(n, "name", "twitter:image", v);
    DescriptionOffers(n, v);
  }

  lemma {:induction false} DescriptionOffers(n: Node, v: string)
    requires v != ""
    ensures FallbackDescription(n) == v <==>
            IsMeta(n, "name", "description", v) || IsMeta(n, "name", "twitter:description", v)
  {
    MetaContentIff(n, "name", "description", v);
    MetaContentIff(n, "name", "twitter:description", v);
  }

  /** An icon link offers its address. */
  lemma {:induction false} IconIff(n: Node, v: string)
    requires v != ""
    ensures Icon(n) == v <==>
            && n.isElement && n.data == "link" && HasAttribute(n.attrs, "href", v)
            && (HasAttribute(n.attrs, "rel", "icon") || HasAttribute(n.attrs, "rel", "shortcut icon"))
  {
    AttributeValueIsLast(n.attrs, "href", v);
    AttributeValueIsLast(n.attrs, "rel", "icon");
    AttributeValueIsLast(n.attrs, "rel", "shortcut icon");
  }

  // ---------- The walk as a fold ----------

  /** A strong value overwrites; a fallback only fills an empty field. */
  function Update(field: string, strong: string, fallback: string): string {
    if strong != "" then strong else if field != "" then field else fallback
  }

  function Visit(m: Metadata, n: Node): Metadata {
    Metadata(
      Update(m.title, OgTitle(n), FallbackTitle(n)),
      Update(m.description, OgDescription(n), FallbackDescription(n)),
      Update(m.imageURL, OgImage(n), FallbackImage(n)),
      Update(m.siteName, OgSiteName(n), ""),
      Update(m.faviconURL, Icon(n), ""))
  }

  function PropertyStep(m: Metadata, property: string, content: string): Metadata {
    m.(title := Update(m.title, if property == "og:title" then content else "", ""),
       description := Update(m.description, if property == "og:description" then content else "", ""),
       imageURL := Update(m.imageURL, if property == "og:image" then content else "", ""),
       siteName := Update(m.siteName, if property == "og:site_name" then content else "", ""))
  }

  function NameStep(m: Metadata, name: string, content: string): Metadata {
    m.(title := Update(m.title, "", if name == "twitter:title" then content else ""),
       description := Update(m.description, "", if name in {"description", "twitter:description"} then content else ""),
       imageURL := Update(m.imageURL, "", if name == "twitter:image" then content else ""))
  }

  /** What a `meta` element with these attributes does to the record. */
  function MetaStep(m: Metadata, attrs: seq<Attribute>): Metadata {
    var content := AttributeValue(attrs, "content");
    NameStep(PropertyStep(m, AttributeValue(attrs, "property"), content), AttributeValue(attrs, "name"), content)
  }

  /** What a `link` element with these attributes does to the record. */
  function LinkStep(m: Metadata, attrs: seq<Attribute>): Metadata {
    var href := if AttributeValue(attrs, "rel") in {"icon", "shortcut icon"} then AttributeValue(attrs, "href") else "";
    m.(faviconURL := Update(m.faviconURL, href, ""))
  }

  lemma TagVisit(m: Metadata, n: Node)
    ensures IsTag(n, "meta") ==> Visit(m, n) == MetaStep(m, n.attrs)
    ensures IsTag(n, "link") ==> Visit(m, n) == LinkStep(m, n.attrs)
  {
  }

  /** The nodes of a tree in document order. */
  function Preorder(n: Node): seq<Node> {
    [n] + PreorderAll(n.children)
  }

  function PreorderAll(ns: seq<Node>): seq<Node> {
    if ns == [] then [] else Preorder(ns[0]) + PreorderAll(ns[1..])
  }

  function Fold(m: Metadata, ns: seq<Node>): Metadata
    decreases |ns|
  {
    if ns == [] then m else Fold(Visit(m, ns[0]), ns[1..])
  }

  lemma {:induction false} FoldConcat(m: Metadata, a: seq<Node>, b: seq<Node>)
    ensures Fold(m, a + b) == Fold(Fold(m, a), b)
    decreases |a|
  {
    if a == [] {
      assert a + b == b;
    } else {
      assert (a + b)[1..] == a[1..] + b && (a + b)[0] == a[0];
      FoldConcat(Visit(m, a[0]), a[1..], b);
    }
  }

  lemma {:induction false} PreorderNext(ns: seq<Node>, i: nat)
    requires i < |ns|
    ensures PreorderAll(ns[..i + 1]) == PreorderAll(ns[..i]) + Preorder(ns[i])
    decreases i
  {
    if i == 0 {
      assert ns[..1] == [ns[0]];
    } else {
      PreorderNext(ns[1..], i - 1);
      assert ns[..i + 1][1..] == ns[1..][..i] && ns[..i][1..] == ns[1..][..i - 1];
    }
  }

  // ---------- The walk in place ----------

  class LinkMetadata {
    var title: string
    var description: string
    var imageURL: string
    var siteName: string
    var faviconURL: string

    ghost function Contents(): Metadata
      reads this
    {
      Metadata(title, description, imageURL, siteName, faviconURL)
    }

    constructor ()
      ensures Contents() == NOTHING
    {
      title, description, imageURL, siteName, faviconURL := "", "", "", "", "";
    }

    /** Fills the record from a tree; the same as visiting the tree's nodes in document order. */
    method Extract(n: Node)
      modifies this
      ensures Contents() == Fold(old(Contents()), Preorder(n))
      decreases n
    {
      if n.isElement {
        if n.data == "title" {
          if n.children != [] && title == "" {
            title := n.children[0].data;
          }
        } else if n.data == "meta" {
          ExtractMeta(n.attrs);
        } else if n.data == "link" {
          ExtractLink(n.attrs);
        }
      }
      TagVisit(old(Contents()), n);
      assert Contents() == Visit(old(Contents()), n);

      for i := 0 to |n.children|
        invariant Contents() == Fold(Visit(old(Contents()), n), PreorderAll(n.children[..i]))
      {
        label child:
        Extract(n.children[i]);
        PreorderNext(n.children, i);
        FoldConcat(Visit(old(Contents()), n), PreorderAll(n.children[..i]), Preorder(n.children[i]));
      }
      assert n.children[..|n.children|] == n.children;
    }

    method ExtractMeta(attrs: seq<Attribute>)
      modifies this
      ensures Contents() == MetaStep(old(Contents()), attrs)
    {
      var name, property, content := "", "", "";
      for i := 0 to |attrs|
        invariant name == AttributeValue(attrs[..i], "name")
        invariant property == AttributeValue(attrs[..i], "property")
        invariant content == AttributeValue(attrs[..i], "content")
      {
        var attr := attrs[i];
        assert attrs[..i + 1][..i] == attrs[..i];
        if attr.key == "name" {
          name := attr.val;
        } else if attr.key == "property" {
          property := attr.val;
        } else if attr.key == "content" {
          content := attr.val;
        }
      }
      assert attrs[..|attrs|] == attrs;

      ApplyProperty(property, content);
      ApplyName(name, content);
    }

    /** OpenGraph values overwrite. */
    method ApplyProperty(property: string, content: string)
      modifies this
      ensures Contents() == PropertyStep(old(Contents()), property, content)
    {
      if content != "" {
        if property == "og:title" {
          title := content;
        } else if property == "og:description" {
          description := content;
        } else if property == "og:image" {
          imageURL := content;
        } else if property == "og:site_name" {
          siteName := content;
        }
      }
    }

    /** Twitter values and plain descriptions fill empty fields. */
    method ApplyName(name: string, content: string)
      modifies this
      ensures Contents() == NameStep(old(Contents()), name, content)
    {
      if name == "twitter:title" {
        if title == "" && content != "" {
          title := content;
        }
      } else if name == "twitter:description" {
        if description == "" && content != "" {
          description := content;
        }
      } else if name == "twitter:image" {
        if imageURL == "" && content != "" {
          imageURL := content;
        }
      } else if name == "description" {
        if description == "" && content != "" {
          description := content;
        }
      }
    }

    method ExtractLink(attrs: seq<Attribute>)
      modifies this
      ensures Contents() == LinkStep(old(Contents()), attrs)
    {
      var rel, href := "", "";
      for i := 0 to |attrs|
        invariant rel == AttributeValue(attrs[..i], "rel")
        invariant href == AttributeValue(attrs[..i], "href")
      {
        var attr := attrs[i];
        assert attrs[..i + 1][..i] == attrs[..i];
        if attr.key == "rel" {
          rel := attr.val;
        } else if attr.key == "href" {
          href := attr.val;
        }
      }
      assert attrs[..|attrs|] == attrs;

      if (rel == "icon" || rel == "shortcut icon") && href != "" {
        faviconURL := href;
      }
    }
  }

  // ---------- The closed form ----------

  ghost predicate AllEmpty(ns: seq<Node>, f: Node -> string) {
    forall i :: 0 <= i < |ns| ==> f(ns[i]) == ""
  }

  ghost predicate IsLast(ns: seq<Node>, f: Node -> string, result: string) {
    result != "" && exists i :: 0 <= i < |ns| && f(ns[i]) == result && forall j :: i < j < |ns| ==> f(ns[j]) == ""
  }

  ghost predicate IsFirst(ns: seq<Node>, f: Node -> string, result: string) {
    result != "" && exists i :: 0 <= i < |ns| && f(ns[i]) == result && forall j :: 0 <= j < i ==> f(ns[j]) == ""
  }

  /**
   The last nonempty strong value if there is one, else the first nonempty fallback if there is
   one, else nothing.
   */
  ghost predicate LastElseFirst(ns: seq<Node>, strong: Node -> string, fallback: Node -> string, result: string) {
    if !AllEmpty(ns, strong) then IsLast(ns, strong, result)
    else if !AllEmpty(ns, fallback) then IsFirst(ns, fallback, result)
    else result == ""
  }

  function FoldField(ns: seq<Node>, strong: Node -> string, fallback: Node -> string): string
    decreases |ns|
  {
    if ns == [] then ""
    else
      var last := ns[|ns| - 1];
      Update(FoldField(ns[..|ns| - 1], strong, fallback), strong(last), fallback(last))
  }

  lemma AllEmptyNext(ns: seq<Node>, n: Node, f: Node -> string)
    ensures AllEmpty(ns + [n], f) <==> AllEmpty(ns, f) && f(n) == ""
  {
    assert (ns + [n])[|ns|] == n;
    assert forall i :: 0 <= i < |ns| ==> (ns + [n])[i] == ns[i];
  }

  lemma IsLastNext(ns: seq<Node>, n: Node, f: Node -> string, result: string)
    requires if f(n) == "" then IsLast(ns, f, result) else result == f(n)
    ensures IsLast(ns + [n], f, result)
  {
    if f(n) == "" {
      var i :| 0 <= i < |ns| && f(ns[i]) == result && forall j :: i < j < |ns| ==> f(ns[j]) == "";
      assert f((ns + [n])[i]) == result;
    } else {
      assert f((ns + [n])[|ns|]) == result;
    }
  }

  lemma IsFirstNext(ns: seq<Node>, n: Node, f: Node -> string, result: string)
    requires if AllEmpty(ns, f) then result == f(n) != "" else IsFirst(ns, f, result)
    ensures IsFirst(ns + [n], f, result)
  {
    if AllEmpty(ns, f) {
      assert f((ns + [n])[|ns|]) == result;
    } else {
      var i :| 0 <= i < |ns| && f(ns[i]) == result && forall j :: 0 <= j < i ==> f(ns[j]) == "";
      assert f((ns + [n])[i]) == result;
    }
  }

  lemma {:induction false} FieldClosedForm(ns: seq<Node>, strong: Node -> string, fallback: Node -> string)
    ensures LastElseFirst(ns, strong, fallback, FoldField(ns, strong, fallback))
    decreases |ns|
  {
    if ns != [] {
      var front, n := ns[..|ns| - 1], ns[|ns| - 1];
      var result := FoldField(ns, strong, fallback);
      FieldClosedForm(front, strong, fallback);
      assert ns == front + [n];
      AllEmptyNext(front, n, strong);
      AllEmptyNext(front, n, fallback);
      if !AllEmpty(ns, strong) {
        IsLastNext(front, n, strong, result);
      } else if !AllEmpty(ns, fallback) {
        IsFirstNext(front, n, fallback, result);
      }
    }
  }

  lemma {:induction false} FoldByFields(ns: seq<Node>)
    ensures Fold(NOTHING, ns) ==
            Metadata(FoldField(ns, OgTitle, FallbackTitle), FoldField(ns, OgDescription, FallbackDescription),
                     FoldField(ns, OgImage, FallbackImage), FoldField(ns, OgSiteName, NoFallback),
                     FoldField(ns, Icon, NoFallback))
    decreases |ns|
  {
    if ns != [] {
      FoldByFields(ns[..|ns| - 1]);
      FoldLast(NOTHING, ns);
    }
  }

  lemma FoldLast(m: Metadata, ns: seq<Node>)
    requires ns != []
    ensures Fold(m, ns) == Visit(Fold(m, ns[..|ns| - 1]), ns[|ns| - 1])
  {
    var front, last := ns[..|ns| - 1], ns[|ns| - 1];
    assert ns == front + [last];
    FoldConcat(m, front, [last]);
    assert Fold(Fold(m, front), [last]) == Fold(Visit(Fold(m, front), last), []);
  }

  /** What the walk over a whole document finds, field by field, whatever the document. */
  lemma PreviewClosedForm(doc: Node)
    ensures var m, ns := Fold(NOTHING, Preorder(doc)), Preorder(doc);
            && LastElseFirst(ns, OgTitle, FallbackTitle, m.title)
            && LastElseFirst(ns, OgDescription, FallbackDescription, m.description)
            && LastElseFirst(ns, OgImage, FallbackImage, m.imageURL)
            && LastElseFirst(ns, OgSiteName, NoFallback, m.siteName)
            && LastElseFirst(ns, Icon, NoFallback, m.faviconURL)
  {
    var ns := Preorder(doc);
    FoldByFields(ns);
    FieldClosedForm(ns, OgTitle, FallbackTitle);
    FieldClosedForm(ns, OgDescription, FallbackDescription);
    FieldClosedForm(ns, OgImage, FallbackImage);
    FieldClosedForm(ns, OgSiteName, NoFallback);
    FieldClosedForm(ns, Icon, NoFallback);
  }

  // ---------- After the walk ----------

  predicate HasPrefix(s: string, prefix: string) {
    prefix <= s
  }

  function AbsoluteImage(url: string, scheme: string, host: string): string {
    if url == "" || HasPrefix(url, "http") then url
    else if HasPrefix(url, "//") then scheme + ":" + url
    else if HasPrefix(url, "/") then scheme + "://" + host + url
    else url
  }

  /** A rooted image gets the page's scheme and host, one that starts with two slashes the scheme; others stay. */
  lemma {:induction false} ImageResolved(url: string, scheme: string, host: string)
    ensures var image := AbsoluteImage(url, scheme, host);
            && (url == "" || url[0] != '/' ==> image == url)
            && (|url| == 1 && url[0] == '/' ==> image == scheme + "://" + host + "/")
            && (|url| > 1 && url[0] == '/' ==>
                 image == if url[1] == '/' then scheme + ":" + url else scheme + "://" + host + url)
  {
    assert HasPrefix(url, "/") <==> url != "" && url[0] == '/';
    assert HasPrefix(url, "//") <==> |url| > 1 && url[0] == '/' && url[1] == '/';
    assert HasPrefix(url, "http") ==> url[0] == 'h';
  }

  predicate Absolute(url: string) {
    HasPrefix(url, "http://") || HasPrefix(url, "https://")
  }

  /**
   A preview has no image or an absolute image URL exactly when the document's URL was empty,
   absolute or rooted. Every path relative to the document stays as it is, also one that only looks
   absolute to the guard.
   */
  lemma ImageMadeAbsolute(url: string, scheme: string, host: string)
    requires scheme in {"http", "https"}
    ensures var image := AbsoluteImage(url, scheme, host);
            (url == "" || Absolute(image)) <==> (url == "" || Absolute(url) || HasPrefix(url, "/"))
    ensures !Absolute(AbsoluteImage("cover.png", scheme, host))
    ensures !Absolute(AbsoluteImage("httpd/cover.png", scheme, host))
  {
    var image := AbsoluteImage(url, scheme, host);
    if HasPrefix(url, "/") {
      assert !HasPrefix(url, "http") by { assert url[0] == '/' && "http"[0] == 'h'; }
      RootedBecomesAbsolute(url, scheme, host);
    } else {
      assert image == url by {
        assert "//"[..1] == "/";
      }
    }
    NotAbsolute("cover.png", 0);
    NotAbsolute("httpd/cover.png", 4);
    assert AbsoluteImage("cover.png", scheme, host) == "cover.png" by {
      assert "cover.png"[0] == 'c' && "http"[0] == 'h';
    }
    assert AbsoluteImage("httpd/cover.png", scheme, host) == "httpd/cover.png" by {
      assert "httpd/cover.png"[..4] == "http";
    }
  }

  /** A difference within the first five characters from both schemes. */
  lemma NotAbsolute(url: string, i: nat)
    requires i < |url| && i < 5 && url[i] != "http:"[i] && url[i] != "https"[i]
    ensures !Absolute(url)
  {
    assert "http://"[..5] == "http:" && "https://"[..5] == "https";
  }

  lemma RootedBecomesAbsolute(url: string, scheme: string, host: string)
    requires scheme in {"http", "https"} && HasPrefix(url, "/") && !HasPrefix(url, "http")
    ensures Absolute(AbsoluteImage(url, scheme, host))
  {
    var image := AbsoluteImage(url, scheme, host);
    if HasPrefix(url, "//") {
      assert image == scheme + "://" + url[2..];
    } else {
      assert image == scheme + "://" + (host + url);
    }
    assert "http" + "://" == "http://" && "https" + "://" == "https://";
  }
}
