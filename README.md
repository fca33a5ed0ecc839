# Simpler controller: response assembly, modelled in Dafny

`Simpler::Controller` is the base class of the controllers in the Simpler web framework.
One controller object is made per request. It works out its own name from its class name:
`PostsController` becomes `posts`. `make_response(action, logger)` then runs a fixed
pipeline over the Rack request and response:

1. It records itself and the action in the Rack environment (`simpler.controller`, `simpler.action`).
2. For the `show` action it sets `params['id']` to the digits of `REQUEST_PATH`.
3. It logs the request.
4. It calls the action method. The action may call `render(directive)`, and each call
   overwrites `simpler.template`.
5. It sets the headers, then the status, then writes the body. A Hash directive led by
   `:json`, `:xml` or `:plain` (`render json: text, status: 201`) chooses `text/<format>`
   and its first value as the body. A Hash led by any other key (`:status`, say) sets no
   Content-Type and writes a nil chunk. Any `:status` key in a Hash sets the status. Without
   a Hash, the Content-Type is `text/html` and the body is the template's output.
6. It logs the response and finishes it.

The model has five modules:

- `Ruby` (`ruby_values.dfy`): the Ruby values involved: nil, Strings, Integers, Symbol and
  String keys, and a Hash as the ordered sequence of its entries (`keys.first` matters),
  no key twice. `Template` is what `env['simpler.template']` holds: a Hash, or any other value.
- `Naming` (`naming.dfy`): `extract_name` as a function, with the greedy,
  case-sensitive regular-expression match spelled out.
- `Params` (`params.dfy`): the digit filter `gsub(/\D+/, '')` and `set_params` as functions.
- `Responses` (`responses.dfy`): the response record (status, header map, body chunks).
  It also holds one function per response step and `Assemble`, which is steps 5 to 7
  composed. The properties of the pipeline are proved about `Assemble`. The log-line
  strings are built here too.
- `Controllers` (`controller.dfy`): the controller as a class. Its fields are the environment
  entries it writes, the params map and the response. Most private methods of the source
  are methods here, each with a field-precise `modifies` clause and proved against the step
  functions. The exceptions: `extract_name` is the function `Naming.ExtractName`, evaluated
  once into the `name` field; `params` is the `params` field itself; `format_json`,
  `format_xml` and `format_plain` differ only in the type name and are the one method
  `FormatAs`. `Respond` groups lines 21 to 24 of `make_response`. `MakeResponse` is proved
  to produce `Assemble` of the prior response and to leave exactly two log lines, in order,
  unless one of the steps raises.

Notable behaviour of the code, which the model keeps:

- The name match is case-sensitive and is not anchored at the end of the class name.
  `AdminControllerHelper` gives `admin`, and `Postscontroller` fails (`MatchIsNotAnchored`,
  `MatchIsCaseSensitive`).
- `set_response_headers` only handles `:plain`. The Content-Type for `:json` and `:xml` is
  set later, by `type_definition` inside `render_format`. The final header is the same.
- A `:status` key is honoured in any Hash directive, even one whose first key is not a
  format (`StatusFirstExample`).
- `render` may be called several times; the last call wins.
- The logged template path ends in `.html.erb`.
- A `show` request without `REQUEST_PATH` raises (`nil.gsub`) before anything is logged.
- When the template renderer raises (no template file for the action), the headers and the
  status are already set, but no body is written and no response line is logged.

## Model

| member | source | states |
|---|---|---|
| `Naming.LastOccurrence` | lib/simpler/controller.rb:32 | the result is an occurrence of `Controller` at or before the bound, with at least one character in front of it, and no occurrence lies between it and the bound; None exactly when there is no such occurrence |
| `Naming.Downcase` | lib/simpler/controller.rb:32 | same length; every character is lower-cased in its place |
| `Naming.DowncaseIdempotent` | lib/simpler/controller.rb:32 | lower-casing an already lower-cased name changes nothing |
| `Naming.ExtractName` | lib/simpler/controller.rb:31-33 | fails exactly when no `Controller` has a character in front of it; otherwise it is the lower-cased text before the last such occurrence (the greedy split) |
| `Naming.ExtractNameOfSuffixed` | lib/simpler/controller.rb:31-33 | any non-empty name followed by `Controller` yields that name lower-cased, even when the name itself contains `Controller` |
| `Naming.BareSuffixFails` | lib/simpler/controller.rb:32 | a class named just `Controller` cannot be constructed |
| `Naming.MatchIsCaseSensitive` | lib/simpler/controller.rb:32 | `Postscontroller` has no match, so construction fails |
| `Naming.MatchIsNotAnchored` | lib/simpler/controller.rb:32 | `AdminControllerHelper` yields `admin`: text after the suffix is dropped |
| `Params.Digits` | lib/simpler/controller.rb:77 | the filtered id contains only ASCII digits and is no longer than the path |
| `Params.DigitsAppend` | lib/simpler/controller.rb:77 | the digits of a concatenation are the digits of each part in order, so the id keeps the path's digits in their original order |
| `Params.DigitsOfDigitString` | lib/simpler/controller.rb:77 | a path made only of digits is kept whole |
| `Params.DigitsIdempotent` | lib/simpler/controller.rb:77 | filtering twice gives the same id as filtering once |
| `Params.DigitsEmptyIff` | lib/simpler/controller.rb:77 | the id is empty exactly when the path has no digit |
| `Params.ArticlePath` | lib/simpler/controller.rb:77 | the path `/articles/42` gives the id `42` |
| `Params.SetParams` | lib/simpler/controller.rb:75-79 | fails exactly for a `show` request with no path; for `show` the `id` is the path's digits and every other key is unchanged; for any other action the map is unchanged |
| `Ruby.FirstKey` | lib/simpler/controller.rb:44 | `keys.first` is nil exactly for an empty Hash, and otherwise the key of the first entry |
| `Ruby.FirstValue` | lib/simpler/controller.rb:91 | `values.first` is nil for an empty Hash, and otherwise the value paired with `keys.first` |
| `Ruby.HasKey` | lib/simpler/controller.rb:52 | `keys.include?(k)` holds exactly when some entry has the key `k` |
| `Ruby.Get` | lib/simpler/controller.rb:52-53 | a Hash lookup gives nil for a missing key and otherwise a value stored under that key |
| `Ruby.GetStored` | lib/simpler/controller.rb:53 | since a Hash has no key twice, the lookup gives the value of the entry that holds the key |
| `Ruby.NatToSRoundTrip` | lib/simpler/controller.rb:129 | reading the decimal digits of a number back gives the number |
| `Ruby.ToS` | lib/simpler/controller.rb:124-130 | interpolating nil gives the empty string and a String gives itself; an Integer gives its decimal digits with no leading zero (only `0` itself starts with `0`), with a leading `-` exactly when it is negative, and those digits read back to its magnitude |
| `Responses.FormatName` | lib/simpler/controller.rb:89-100 | a format is recognised exactly for the Symbols `:json`, `:xml` and `:plain`, and it is the key's own name |
| `Responses.WithType` | lib/simpler/controller.rb:120-122 | the Content-Type becomes `text/<kind>`; the other headers, the status and the body are kept |
| `Responses.WithHeaders` | lib/simpler/controller.rb:35-59 | no Hash directive: Content-Type `text/html`; a Hash led by `:plain`: `text/plain`; any other Hash: the response is unchanged; never a header other than Content-Type, the status or the body |
| `Responses.WithStatus` | lib/simpler/controller.rb:49-55 | the response is unchanged unless a Hash directive has a `:status` key; the status then becomes the value stored under that key; headers and body are always kept |
| `Responses.FormatRendering` | lib/simpler/controller.rb:89-100 | an unknown first key leaves the response and returns nil; a known format sets `text/<format>` and returns the value paired with it verbatim; status and body are kept |
| `Responses.RenderBody` | lib/simpler/controller.rb:67-73 | a Hash directive gives what `render_format` gives; anything else leaves the response unchanged and yields the template's output; status and body are never touched here |
| `Responses.WithBody` | lib/simpler/controller.rb:61-73 | exactly one chunk is appended after the existing ones and the status is kept; without a Hash directive it is the template's output and the headers are kept; with one it is the first value for a known format and nil otherwise |
| `Responses.Assemble` | lib/simpler/controller.rb:35-73 | no Hash directive: `text/html`, status kept, template output appended; a known format first: `text/<format>` and the first value appended verbatim; any other first key: headers untouched and a nil chunk; the status becomes the `:status` value exactly when a Hash directive has that key, and is kept otherwise |
| `Responses.PlainExample` | lib/simpler/controller.rb:114-118 | `render plain: 'hello'` on a fresh response gives status 200, `text/plain` and body `hello` |
| `Responses.JsonWithStatusExample` | lib/simpler/controller.rb:102-106 | `render json: ..., status: 201` gives status 201, `text/json` and the JSON text as body |
| `Responses.StatusFirstExample` | lib/simpler/controller.rb:43-55 | with `:status` listed first, the status is applied but no Content-Type is set and the body chunk is nil |
| `Responses.TemplatePathLayout` | lib/simpler/controller.rb:129 | the template path is the name, `/`, the action and `.html.erb` |
| `Responses.RequestLineLayout` | lib/simpler/controller.rb:125 | the request line is `Handler: `, the controller class, `#`, the action, a line break, `Parameters: ` and the params text |
| `Responses.ResponseLineLayout` | lib/simpler/controller.rb:129 | the response line is `Response: `, the status, the Content-Type in brackets (empty when none is set) and the directive, or the template path when there is none |
| `Responses.ResponseLogAfterTemplate` | lib/simpler/controller.rb:128-130 | without a directive the response line reports the kept status, `text/html` and the path `<name>/<action>.html.erb` |
| `Responses.ResponseLogAfterFormat` | lib/simpler/controller.rb:128-130 | with a known format first the response line reports the final status, `text/<format>` and the directive |
| `Controllers.AfterAction` | lib/simpler/controller.rb:85-87 | after a sequence of `render` calls the directive is the last one rendered, or the prior one when there was none |
| `Controllers.NewController` | lib/simpler/controller.rb:8-12 | construction fails exactly when the name cannot be derived; otherwise a fresh controller with the derived name, the given actions, the request's path, params and template, no `simpler.controller` or `simpler.action` entry yet, and a 200 response with no headers or body |
| `Controllers.Controller.constructor` | lib/simpler/controller.rb:8-12 | the name is derived from the class name; the response starts at status 200 with no headers and no body |
| `Controllers.Controller.Render` | lib/simpler/controller.rb:85-87 | `simpler.template` becomes the argument and nothing else changes |
| `Controllers.Controller.SetParams` | lib/simpler/controller.rb:75-79 | the params become `Params.SetParams` of the current action, path and params, or stay unchanged when that fails; reports the failure |
| `Controllers.Controller.LogRequest` | lib/simpler/controller.rb:124-126 | appends one line naming the controller class, the action and the current params |
| `Controllers.Controller.Invoke` | lib/simpler/controller.rb:20 | succeeds exactly when the action exists; the directive is then the one left by the action's `render` calls |
| `Controllers.Controller.SetDefaultHeaders` | lib/simpler/controller.rb:57-59 | Content-Type becomes `text/html`; other headers are kept |
| `Controllers.Controller.SetResponseHeaders` | lib/simpler/controller.rb:43-47 | Content-Type becomes `text/plain` when the first key is `:plain`; otherwise the headers are unchanged |
| `Controllers.Controller.SetHeaders` | lib/simpler/controller.rb:35-41 | the response becomes `WithHeaders` of the prior response and the directive; only the headers change |
| `Controllers.Controller.SetStatus` | lib/simpler/controller.rb:49-55 | the response becomes `WithStatus` of the prior response and the directive; only the status changes |
| `Controllers.Controller.TypeDefinition` | lib/simpler/controller.rb:120-122 | Content-Type becomes `text/<kind>`; other headers are kept |
| `Controllers.Controller.FormatAs` | lib/simpler/controller.rb:102-118 | returns the text unchanged and sets Content-Type to `text/<kind>` |
| `Controllers.Controller.RenderFormat` | lib/simpler/controller.rb:89-100 | the returned text and the new response are `FormatRendering` of the prior response and the directive |
| `Controllers.Controller.RenderBody` | lib/simpler/controller.rb:67-73 | fails exactly when there is no Hash directive and the template renderer raises, and then changes nothing; otherwise a Hash directive is formatted and any other directive gives the renderer's output for this controller, action and template |
| `Controllers.Controller.WriteResponse` | lib/simpler/controller.rb:61-65 | fails exactly when rendering raises, leaving the response unchanged; otherwise the rendered chunk is appended to the body |
| `Controllers.Controller.LogResponse` | lib/simpler/controller.rb:128-130 | appends one line with the current status, the Content-Type and the directive, or the template path when there is none |
| `Controllers.Controller.Finish` | lib/simpler/controller.rb:26 | returns the current status, headers and body |
| `Controllers.Controller.Respond` | lib/simpler/controller.rb:21-24 | fails exactly when the template renderer raises, with headers and status set and nothing written or logged; otherwise the response is `Assemble` of the prior one and one response line is logged |
| `Controllers.Controller.MakeResponse` | lib/simpler/controller.rb:14-27 | the environment records the controller and the action. With no path on `show` it raises and leaves params, log and response unchanged. Otherwise params are set and the request line is logged first. For an unknown action it raises with the response untouched and only the request line logged. When the template renderer raises, headers and status are set, no body is written and only the request line is logged. Otherwise the response is `Assemble` of the prior one under the action's directive, and the response line logs that final status and Content-Type after the request line |
| `Controllers.Logger.Info` | lib/simpler/controller.rb:125 | appends the line to the log |

## Left out

- Rack's own `Request` and `Response` classes are not modelled. The response is a plain record, and `finish` returns it as it is. The model says nothing about how Rack serialises a nil body chunk or a non-Integer status.
- The model does not say whether a write through Rack's `Request#params` persists: params are modelled as a stored map.
- The template engine (`View`, with the Ruby `binding`) is a function parameter from the controller name, action and directive to the body text, or to None where it raises (a missing template file). The exception's class and message are not modelled. `view.rb` is not part of this model.
- Dynamic dispatch `send(action)` is modelled as a table from action name to the `render` calls that action makes. Anything else an action might do (set the status or headers itself, raise) is not modelled.
- The logger's transport is modelled only as an appended list of lines. Ruby's rendering of a Hash in a log line (`Hash#to_s` for the params and the directive) is a function parameter.
- Naming.Downcase: lower-cases ASCII letters only, where Ruby's `String#downcase` also maps non-ASCII letters.
- Naming.ExtractName: treats `.` as matching any character. Ruby's `.` excludes a line break, which a class name cannot contain.
- Directive and status values are limited to nil, Strings and Integers. `false`, nested Hashes and other objects are not modelled.
