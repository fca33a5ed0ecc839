/** The response record and what each step of `make_response` does to it, as functions.
    The controller's methods are proved to follow these. */
module Responses {
  import opened Ruby

  /** What `Rack::Response#finish` hands back: status, header map and the written chunks. */
  datatype Response = Response(status: Value, headers: map<string, string>, body: seq<Value>)

  const ContentType: string := "Content-Type"

  /** A fresh `Rack::Response`: status 200, no headers, no body. */
  const Fresh: Response := Response(Int(200), map[], [])

  /** The directive keys `render_format` knows: `:json`, `:xml` and `:plain`. */
  function FormatName(k: Option<Key>): (f: Option<string>)
    ensures f.Some? <==> k in {Some(Sym("json")), Some(Sym("xml")), Some(Sym("plain"))}
    ensures f.Some? ==> k == Some(Sym(f.value))
  {
    match k
    case Some(Sym(n)) => if n == "json" || n == "xml" || n == "plain" then Some(n) else None
    case _ => None
  }

  /** `type_definition(type)`: the Content-Type becomes `text/<kind>`. */
  function WithType(r: Response, kind: string): (w: Response)
    ensures w.status == r.status && w.body == r.body
    ensures ContentType in w.headers && w.headers[ContentType] == "text/" + kind
    ensures AgreeExcept(r.headers, w.headers, ContentType)
  {
    r.(headers := r.headers[ContentType := "text/" + kind])
  }

  /** `set_headers`: `set_response_headers` for a Hash directive, `set_default_headers` otherwise. */
  function WithHeaders(r: Response, t: Template): (w: Response)
    ensures w.status == r.status && w.body == r.body
    ensures AgreeExcept(r.headers, w.headers, ContentType)
    // no Hash directive: text/html
    ensures t.NotHash? ==> ContentType in w.headers && w.headers[ContentType] == "text/html"
    // a Hash directive led by `:plain`: text/plain
    ensures t.HashOf? && FirstKey(t.entries) == Some(Sym("plain")) ==>
      ContentType in w.headers && w.headers[ContentType] == "text/plain"
    // any other Hash directive: nothing is written here
    ensures t.HashOf? && FirstKey(t.entries) != Some(Sym("plain")) ==> w == r
  {
    assert "text/" + "html" == "text/html";
    assert "text/" + "plain" == "text/plain";
    if t.NotHash? then WithType(r, "html")
    else if FirstKey(t.entries) == Some(Sym("plain")) then WithType(r, "plain")
    else r
  }

  /** `set_status` */
  function WithStatus(r: Response, t: Template): (w: Response)
    ensures w.headers == r.headers && w.body == r.body
    // only a Hash directive with a `:status` key changes the status ...
    ensures !(t.HashOf? && HasKey(t.entries, Sym("status"))) ==> w == r
    // ... and then it becomes the value stored under that key
    ensures t.HashOf? && HasKey(t.entries, Sym("status")) ==> (Sym("status"), w.status) in t.entries
  {
    if t.HashOf? && HasKey(t.entries, Sym("status")) then r.(status := Get(t.entries, Sym("status")))
    else r
  }

  /** `render_format`: the response after its `type_definition` call and the text it returns
      (nil when the first key is not a known format). */
  function FormatRendering(r: Response, h: seq<Entry>): (p: (Response, Value))
    ensures p.0.status == r.status && p.0.body == r.body
    // an unknown first key: nothing is set and the text is nil
    ensures FormatName(FirstKey(h)).None? ==> p == (r, Nil)
    // a known format: its Content-Type, and the value paired with it returned verbatim
    ensures FormatName(FirstKey(h)).Some? ==>
      h != [] && p.1 == h[0].1 && AgreeExcept(r.headers, p.0.headers, ContentType) &&
      ContentType in p.0.headers && p.0.headers[ContentType] == "text/" + FormatName(FirstKey(h)).value
  {
    match FormatName(FirstKey(h))
    case Some(f) => (WithType(r, f), FirstValue(h))
    case None => (r, Nil)
  }

  /** `render_body`: the formatted directive for a Hash, the template's output otherwise. */
  function RenderBody(r: Response, t: Template, viewText: string): (p: (Response, Value))
    ensures p.0.status == r.status && p.0.body == r.body
    ensures t.HashOf? ==> p == FormatRendering(r, t.entries)
    ensures t.NotHash? ==> p == (r, Str(viewText))
  {
    if t.HashOf? then FormatRendering(r, t.entries) else (r, Str(viewText))
  }

  /** `write_response`: the rendered body is written as one more chunk. */
  function WithBody(r: Response, t: Template, viewText: string): (w: Response)
    ensures w.status == r.status
    // exactly one chunk is appended, after the chunks already written
    ensures |w.body| == |r.body| + 1 && w.body[..|r.body|] == r.body
    ensures AgreeExcept(r.headers, w.headers, ContentType)
    // no Hash directive: the template's output, headers untouched
    ensures t.NotHash? ==> w.headers == r.headers && w.body[|r.body|] == Str(viewText)
    // a Hash directive: the first value for a known format, nil otherwise
    ensures t.HashOf? ==>
      w.body[|r.body|] == if FormatName(FirstKey(t.entries)).Some? then t.entries[0].1 else Nil
  {
    var rendered := RenderBody(r, t, viewText);
    rendered.0.(body := rendered.0.body + [rendered.1])
  }

  /** Steps 5 to 7 of `make_response`, in order: headers, status, body. `viewText` is what the
      template renderer produces; it is used only when there is no Hash directive. */
  function Assemble(r: Response, t: Template, viewText: string): (a: Response)
    // no Hash directive: text/html, status untouched, the template's output as body
    ensures t.NotHash? ==>
      a == Response(r.status, r.headers[ContentType := "text/html"], r.body + [Str(viewText)])
    // a known format first: its Content-Type, its first value verbatim as body
    ensures t.HashOf? && FormatName(FirstKey(t.entries)).Some? ==>
      a.headers == r.headers[ContentType := "text/" + FormatName(FirstKey(t.entries)).value] &&
      a.body == r.body + [FirstValue(t.entries)]
    // any other first key: no Content-Type is written and the chunk is nil
    ensures t.HashOf? && FormatName(FirstKey(t.entries)).None? ==>
      a.headers == r.headers && a.body == r.body + [Nil]
    // the status changes only through a `:status` key of a Hash directive
    ensures a.status == if t.HashOf? && HasKey(t.entries, Sym("status"))
                        then Get(t.entries, Sym("status")) else r.status
  {
    assert "text/" + "html" == "text/html";
    WithBody(WithStatus(WithHeaders(r, t), t), t, viewText)
  }

  /** `render plain: 'hello'` on a fresh response. */
  lemma PlainExample(viewText: string)
    ensures Assemble(Fresh, HashOf([(Sym("plain"), Str("hello"))]), viewText)
         == Response(Int(200), map[ContentType := "text/plain"], [Str("hello")])
  {
    assert "text/" + "plain" == "text/plain";
  }

  /** `render json: '{"a":1}', status: 201` on a fresh response. */
  lemma JsonWithStatusExample(viewText: string)
    ensures Assemble(Fresh, HashOf([(Sym("json"), Str("{\"a\":1}")), (Sym("status"), Int(201))]), viewText)
         == Response(Int(201), map[ContentType := "text/json"], [Str("{\"a\":1}")])
  {
    var h := [(Sym("json"), Str("{\"a\":1}")), (Sym("status"), Int(201))];
    assert "text/" + "json" == "text/json";
    assert h[1].0 == Sym("status");
    assert HasKey(h, Sym("status"));
  }

  /** `render status: 201, json: '{}'`: with `:status` listed first no format is recognised,
      so no Content-Type is set and the body chunk is nil, yet the status is applied. */
  lemma StatusFirstExample(viewText: string)
    ensures Assemble(Fresh, HashOf([(Sym("status"), Int(201)), (Sym("json"), Str("{}"))]), viewText)
         == Response(Int(201), map[], [Nil])
  {
  }

  /** The template path reported in the response log: `<name>/<action>.html.erb`. */
  function TemplatePath(name: string, action: string): (p: string)
  {
    name + "/" + action + ".html.erb"
  }

  /** The template path is the name, a slash, the action and the `.html.erb` extension. */
  lemma TemplatePathLayout(name: string, action: string)
    ensures var p := TemplatePath(name, action);
      |p| == |name| + |action| + 10 &&
      p[..|name|] == name && p[|name|] == '/' &&
      p[|name| + 1..|name| + 1 + |action|] == action &&
      p[|p| - 9..] == ".html.erb"
  {
  }

  /** `log_request`: the class of the controller, the action and the rendered params. */
  function RequestLine(controllerClass: string, action: string, paramsText: string): (l: string)
  {
    "Handler: " + controllerClass + "#" + action + "\nParameters: " + paramsText
  }

  /** The request line names the class and the action, separated by `#`, then on a second
      line the params. */
  lemma RequestLineLayout(controllerClass: string, action: string, paramsText: string)
    ensures var l := RequestLine(controllerClass, action, paramsText);
      |l| == |controllerClass| + |action| + |paramsText| + 23 &&
      l[..9] == "Handler: " && l[9..9 + |controllerClass|] == controllerClass &&
      l[9 + |controllerClass|] == '#' &&
      l[10 + |controllerClass|..10 + |controllerClass| + |action|] == action &&
      l[10 + |controllerClass| + |action|..|l| - |paramsText|] == "\nParameters: " &&
      l[|l| - |paramsText|..] == paramsText
  {
  }

  /** What `log_response` reports after the status and Content-Type: the directive, or the
      template path when there is none (`nil || path`). */
  function Subject(t: Template, name: string, action: string, hashText: seq<Entry> -> string): (s: string)
  {
    match t
    case HashOf(h) => hashText(h)
    case NotHash(Nil) => TemplatePath(name, action)
    case NotHash(v) => ToS(v)
  }

  /** `log_response`: status, Content-Type (empty when unset) and the directive, or the template
      path when there is none. `hashText` is Ruby's rendering of a Hash, which is not modelled. */
  function ResponseLine(r: Response, t: Template, name: string, action: string,
                        hashText: seq<Entry> -> string): (l: string)
  {
    var contentType := if ContentType in r.headers then r.headers[ContentType] else "";
    "Response: " + ToS(r.status) + " [" + contentType + "] " + Subject(t, name, action, hashText)
  }

  /** The response line is the status, the Content-Type in brackets (empty when none is set)
      and then the subject. */
  lemma ResponseLineLayout(r: Response, t: Template, name: string, action: string,
                           hashText: seq<Entry> -> string)
    ensures var l := ResponseLine(r, t, name, action, hashText);
      var head := "Response: " + ToS(r.status) + " [";
      var contentType := if ContentType in r.headers then r.headers[ContentType] else "";
      var subject := Subject(t, name, action, hashText);
      |l| == |head| + |contentType| + 2 + |subject| &&
      l[..|head|] == head &&
      l[|head|..|head| + |contentType|] == contentType &&
      l[|head| + |contentType|..|head| + |contentType| + 2] == "] " &&
      l[|l| - |subject|..] == subject
  {
  }

  /** Without a Hash directive the response line reports the status left in place,
      `text/html` and the template path. */
  lemma ResponseLogAfterTemplate(r: Response, name: string, action: string, viewText: string,
                                 hashText: seq<Entry> -> string)
    ensures ResponseLine(Assemble(r, Unset, viewText), Unset, name, action, hashText)
         == "Response: " + ToS(r.status) + " [text/html] " + name + "/" + action + ".html.erb"
  {
    var a := Assemble(r, Unset, viewText);
    assert a.headers[ContentType] == "text/html";
    assert "Response: " + ToS(r.status) + " [" + "text/html" + "] " + TemplatePath(name, action)
        == "Response: " + ToS(r.status) + " [text/html] " + name + "/" + action + ".html.erb";
  }

  /** With a known format first the response line reports `text/<format>` and the directive. */
  lemma ResponseLogAfterFormat(r: Response, h: Hash, name: string, action: string, viewText: string,
                               hashText: seq<Entry> -> string)
    requires FormatName(FirstKey(h)).Some?
    ensures ResponseLine(Assemble(r, HashOf(h), viewText), HashOf(h), name, action, hashText)
         == "Response: " + ToS(Assemble(r, HashOf(h), viewText).status) + " [text/"
            + FormatName(FirstKey(h)).value + "] " + hashText(h)
  {
    var a := Assemble(r, HashOf(h), viewText);
    assert a.headers[ContentType] == "text/" + FormatName(FirstKey(h)).value;
    assert "Response: " + ToS(a.status) + " [" + ("text/" + FormatName(FirstKey(h)).value) + "] " + hashText(h)
        == "Response: " + ToS(a.status) + " [text/" + FormatName(FirstKey(h)).value + "] " + hashText(h);
  }
}
