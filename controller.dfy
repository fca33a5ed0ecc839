/** `Simpler::Controller`: one object per request that annotates the Rack environment,
    synthesises the `show` id, runs the action and assembles the response in place. */
module Controllers {
  import opened Ruby
  import opened Naming
  import Params
  import opened Responses

  /** The ways `make_response` can raise: `nil.gsub` when a `show` request has no
      `REQUEST_PATH`, `send` naming a method the controller does not have, and the template
      renderer failing (no template for the action). */
  datatype Failure = NoRequestPath | NoSuchAction(action: string) | TemplateError

  datatype Outcome = Finished(response: Response) | Raised(failure: Failure)

  /** The parts of the Rack environment the controller reads when it is created. */
  datatype Env = Env(requestPath: Option<string>, template: Template, params: map<string, string>)

  /** What the template renderer sees: the controller's name, `env['simpler.action']` and
      `env['simpler.template']`. The renderer answers with the body text, or None where it raises. */
  datatype ViewRequest = ViewRequest(controller: string, action: Option<string>, template: Template)

  /** Ruby's own rendering of Hashes inside log lines (`Hash#to_s`), left uninterpreted. */
  datatype Inspector = Inspector(params: map<string, string> -> string, hash: seq<Entry> -> string)

  /** `env['simpler.template']` after an action's `render` calls, made in order. */
  function AfterAction(prior: Template, calls: seq<Template>): (t: Template)
    ensures calls == [] ==> t == prior
    ensures calls != [] ==> t == calls[|calls| - 1]
    decreases calls
  {
    if calls == [] then prior else AfterAction(calls[0], calls[1..])
  }

  /** The logger: `info` appends one line. */
  class Logger {
    var lines: seq<string>

    constructor ()
      ensures lines == []
    {
      lines := [];
    }

    method Info(line: string)
      modifies this
      ensures lines == old(lines) + [line]
    {
      lines := lines + [line];
    }
  }

  class Controller {
    /** `self.class.name` */
    const className: string
    /** `@name`, derived once at construction */
    const name: string
    /** The methods `send(action)` can reach, each given by the `render` calls it makes. */
    const actions: map<string, seq<Template>>
    /** `env['REQUEST_PATH']` */
    const requestPath: Option<string>

    /** `env['simpler.controller']`, `env['simpler.action']`, `env['simpler.template']` */
    var envController: Controller?
    var envAction: Option<string>
    var envTemplate: Template
    /** `request.params` */
    var params: map<string, string>
    /** the `Rack::Response` being assembled */
    var status: Value
    var headers: map<string, string>
    var body: seq<Value>

    ghost predicate Valid()
    {
      ExtractName(className) == Some(name)
    }

    function Current(): (r: Response)
      reads this`status, this`headers, this`body
    {
      Response(status, headers, body)
    }

    /** `env['simpler.controller'].class`, which is `NilClass` while the entry is unset. */
    function ControllerClass(): (c: string)
      reads this`envController
    {
      if envController == null then "NilClass" else envController.className
    }

    /** What the template renderer makes of the current request. */
    function ViewOutput(view: ViewRequest -> Option<string>): (o: Option<string>)
      reads this`envAction, this`envTemplate
    {
      view(ViewRequest(name, envAction, envTemplate))
    }

    /** `render_body` takes the renderer's path and the renderer raises. */
    predicate ViewRaises(view: ViewRequest -> Option<string>)
      reads this`envAction, this`envTemplate
    {
      envTemplate.NotHash? && ViewOutput(view).None?
    }

    /** `env['simpler.action']` interpolated into a string. */
    function ActionText(): (a: string)
      reads this`envAction
    {
      match envAction
      case None => ""
      case Some(a) => a
    }

    /** `initialize(env)` once the name is known to exist; `NewController` covers the failure. */
    constructor (className: string, actions: map<string, seq<Template>>, env: Env)
      requires ExtractName(className).Some?
      ensures Valid()
      ensures this.className == className && this.actions == actions && requestPath == env.requestPath
      ensures envController == null && envAction == None
      ensures envTemplate == env.template && params == env.params
      ensures Current() == Fresh
    {
      this.className := className;
      this.name := ExtractName(className).value;
      this.actions := actions;
      this.requestPath := env.requestPath;
      envController := null;
      envAction := None;
      envTemplate := env.template;
      params := env.params;
      status, headers, body := Int(200), map[], [];
    }

    /** `render(template)`: a later call overwrites an earlier one. */
    method Render(t: Template)
      modifies this`envTemplate
      ensures envTemplate == t
    {
      envTemplate := t;
    }

    /** `set_params` */
    method SetParams() returns (ok: bool)
      modifies this`params
      ensures ok == Params.SetParams(envAction, requestPath, old(params)).Some?
      ensures params == if ok then Params.SetParams(envAction, requestPath, old(params)).value else old(params)
    {
      if envAction == Some("show") {
        if requestPath.None? {
          return false;
        }
        params := params["id" := Params.Digits(requestPath.value)];
      }
      ok := true;
    }

    /** `log_request` */
    method LogRequest(logger: Logger, inspect: Inspector)
      modifies logger
      ensures logger.lines == old(logger.lines) + [RequestLine(ControllerClass(), ActionText(), inspect.params(params))]
    {
      logger.Info(RequestLine(ControllerClass(), ActionText(), inspect.params(params)));
    }

    /** `send(action)`: the action's `render` calls, or failure when there is no such method. */
    method Invoke(action: string) returns (found: bool)
      modifies this`envTemplate
      ensures found <==> action in actions
      ensures envTemplate == if found then AfterAction(old(envTemplate), actions[action]) else old(envTemplate)
    {
      if action !in actions {
        return false;
      }
      var calls := actions[action];
      for i := 0 to |calls|
        invariant envTemplate == AfterAction(old(envTemplate), calls[..i])
      {
        Render(calls[i]);
        assert calls[..i + 1][i] == calls[i];
      }
      assert calls[..|calls|] == calls;
      found := true;
    }

    /** `set_default_headers` */
    method SetDefaultHeaders()
      modifies this`headers
      ensures headers == old(headers)[ContentType := "text/html"]
    {
      headers := headers[ContentType := "text/html"];
    }

    /** `set_response_headers`: only `:plain` as first key is handled here. */
    method SetResponseHeaders()
      requires envTemplate.HashOf?
      modifies this`headers
      ensures headers == if FirstKey(envTemplate.entries) == Some(Sym("plain"))
                         then old(headers)[ContentType := "text/plain"] else old(headers)
    {
      if FirstKey(envTemplate.entries) == Some(Sym("plain")) {
        headers := headers[ContentType := "text/plain"];
      }
    }

    /** `set_headers` */
    method SetHeaders()
      modifies this`headers
      ensures Current() == WithHeaders(old(Current()), envTemplate)
    {
      assert "text/" + "html" == "text/html" && "text/" + "plain" == "text/plain";
      if envTemplate.HashOf? {
        SetResponseHeaders();
      } else {
        SetDefaultHeaders();
      }
    }

    /** `set_status` */
    method SetStatus()
      modifies this`status
      ensures Current() == WithStatus(old(Current()), envTemplate)
    {
      if !envTemplate.HashOf? {
        return;
      }
      if HasKey(envTemplate.entries, Sym("status")) {
        status := Get(envTemplate.entries, Sym("status"));
      }
    }

    /** `type_definition(type)` */
    method TypeDefinition(kind: string)
      modifies this`headers
      ensures headers == old(headers)[ContentType := "text/" + kind]
    {
      headers := headers[ContentType := "text/" + kind];
    }

    /** `format_json`, `format_xml` and `format_plain`: set the type, return the text as it is. */
    method FormatAs(kind: string, text: Value) returns (r: Value)
      modifies this`headers
      ensures r == text
      ensures headers == old(headers)[ContentType := "text/" + kind]
    {
      TypeDefinition(kind);
      r := text;
    }

    /** `render_format` */
    method RenderFormat() returns (text: Value)
      requires envTemplate.HashOf?
      modifies this`headers
      ensures (Current(), text) == FormatRendering(old(Current()), envTemplate.entries)
    {
      var format := FirstKey(envTemplate.entries);
      var value := FirstValue(envTemplate.entries);
      if format == Some(Sym("json")) {
        text := FormatAs("json", value);
      } else if format == Some(Sym("xml")) {
        text := FormatAs("xml", value);
      } else if format == Some(Sym("plain")) {
        text := FormatAs("plain", value);
      } else {
        text := Nil;
      }
    }

    /** `render_body`: None where the template renderer raises. */
    method RenderBody(view: ViewRequest -> Option<string>) returns (chunk: Option<Value>)
      modifies this`headers
      ensures chunk.None? <==> ViewRaises(view)
      ensures chunk.None? ==> Current() == old(Current())
      ensures chunk.Some? ==>
        (Current(), chunk.value) == Responses.RenderBody(old(Current()), envTemplate, ViewOutput(view).GetOr(""))
    {
      if envTemplate.HashOf? {
        var text := RenderFormat();
        chunk := Some(text);
      } else {
        var rendered := view(ViewRequest(name, envAction, envTemplate));
        if rendered.None? {
          return None;
        }
        chunk := Some(Str(rendered.value));
      }
    }

    /** `write_response`: false where rendering raised and nothing was written. */
    method WriteResponse(view: ViewRequest -> Option<string>) returns (ok: bool)
      modifies this`headers, this`body
      ensures ok <==> !ViewRaises(view)
      ensures !ok ==> Current() == old(Current())
      ensures ok ==> Current() == WithBody(old(Current()), envTemplate, ViewOutput(view).GetOr(""))
    {
      var chunk := RenderBody(view);
      if chunk.None? {
        return false;
      }
      body := body + [chunk.value];
      ok := true;
    }

    /** `log_response` */
    method LogResponse(logger: Logger, inspect: Inspector)
      requires Valid()
      modifies logger
      ensures logger.lines
           == old(logger.lines) + [ResponseLine(Current(), envTemplate, name, ActionText(), inspect.hash)]
    {
      var derived := ExtractName(className);
      logger.Info(ResponseLine(Current(), envTemplate, derived.value, ActionText(), inspect.hash));
    }

    /** `@response.finish` */
    method Finish() returns (r: Response)
      ensures r == Current()
    {
      r := Response(status, headers, body);
    }

    /** Lines 21 to 24 of `make_response`, once the action has run: headers, status and body,
        then the response line. False where the template renderer raised, after headers and
        status were set but before any body was written or anything logged. */
    method Respond(logger: Logger, inspect: Inspector, view: ViewRequest -> Option<string>)
      returns (ok: bool)
      requires Valid()
      modifies this`headers, this`status, this`body, logger
      ensures ok <==> !ViewRaises(view)
      ensures !ok ==>
        Current() == WithStatus(WithHeaders(old(Current()), envTemplate), envTemplate) &&
        logger.lines == old(logger.lines)
      ensures ok ==>
        Current() == Assemble(old(Current()), envTemplate, ViewOutput(view).GetOr("")) &&
        logger.lines == old(logger.lines) + [ResponseLine(Current(), envTemplate, name, ActionText(), inspect.hash)]
    {
      ghost var before := Current();
      ghost var viewText := ViewOutput(view).GetOr("");
      SetHeaders();
      SetStatus();
      assert Current() == WithStatus(WithHeaders(before, envTemplate), envTemplate);
      ok := WriteResponse(view);
      if !ok {
        return;
      }
      assert Current() == Assemble(before, envTemplate, viewText);
      LogResponse(logger, inspect);
    }

    /** `make_response(action, logger)`: annotate, synthesise params, log, run the action, then
        headers, status and body, log again and finish. An exception leaves the steps before it done. */
    method MakeResponse(action: string, logger: Logger, inspect: Inspector, view: ViewRequest -> Option<string>)
      returns (outcome: Outcome)
      requires Valid()
      modifies this, logger
      ensures envController == this && envAction == Some(action)
      ensures var p := Params.SetParams(Some(action), requestPath, old(params));
        p.None? ==>
          outcome == Raised(NoRequestPath) && params == old(params) && logger.lines == old(logger.lines) &&
          envTemplate == old(envTemplate) && Current() == old(Current())
      ensures var p := Params.SetParams(Some(action), requestPath, old(params));
        p.Some? ==> params == p.value
      ensures var p := Params.SetParams(Some(action), requestPath, old(params));
        p.Some? && action !in actions ==>
          outcome == Raised(NoSuchAction(action)) &&
          logger.lines == old(logger.lines) + [RequestLine(className, action, inspect.params(params))] &&
          envTemplate == old(envTemplate) && Current() == old(Current())
      ensures var p := Params.SetParams(Some(action), requestPath, old(params));
        p.Some? && action in actions ==> envTemplate == AfterAction(old(envTemplate), actions[action])
      ensures var p := Params.SetParams(Some(action), requestPath, old(params));
        p.Some? && action in actions && ViewRaises(view) ==>
          outcome == Raised(TemplateError) &&
          Current() == WithStatus(WithHeaders(old(Current()), envTemplate), envTemplate) &&
          logger.lines == old(logger.lines) + [RequestLine(className, action, inspect.params(params))]
      ensures var p := Params.SetParams(Some(action), requestPath, old(params));
        p.Some? && action in actions && !ViewRaises(view) ==>
          Current() == Assemble(old(Current()), envTemplate, ViewOutput(view).GetOr("")) &&
          outcome == Finished(Current()) &&
          logger.lines == old(logger.lines) + [RequestLine(className, action, inspect.params(params)),
                                               ResponseLine(Current(), envTemplate, name, action, inspect.hash)]
    {
      ghost var before := Current();
      envController := this;
      envAction := Some(action);

      var ok := SetParams();
      if !ok {
        return Raised(NoRequestPath);
      }
      ghost var logBefore := logger.lines;
      LogRequest(logger, inspect);
      ghost var requestLine := RequestLine(className, action, inspect.params(params));
      assert ControllerClass() == className && ActionText() == action;
      assert logger.lines == logBefore + [requestLine];
      var found := Invoke(action);
      if !found {
        return Raised(NoSuchAction(action));
      }
      assert Current() == before;
      var responded := Respond(logger, inspect, view);
      if !responded {
        assert Current() == WithStatus(WithHeaders(before, envTemplate), envTemplate);
        return Raised(TemplateError);
      }
      assert Current() == Assemble(before, envTemplate, ViewOutput(view).GetOr(""));
      var finished := Finish();
      outcome := Finished(finished);
    }
  }

  /** `Controller.new(env)`: raises (None) when the class name has no `Controller` to strip. */
  method NewController(className: string, actions: map<string, seq<Template>>, env: Env)
    returns (c: Option<Controller>)
    ensures c.None? <==> ExtractName(className).None?
    ensures c.Some? ==>
      fresh(c.value) && c.value.Valid() && c.value.className == className &&
      c.value.name == ExtractName(className).value && c.value.actions == actions &&
      c.value.requestPath == env.requestPath && c.value.envController == null &&
      c.value.envAction == None && c.value.envTemplate == env.template &&
      c.value.params == env.params && c.value.Current() == Fresh
  {
    if ExtractName(className).None? {
      return None;
    }
    var made := new Controller(className, actions, env);
    c := Some(made);
  }
}
