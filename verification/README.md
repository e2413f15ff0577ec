# autoindex — verified model of the application glue

autoindex is a small HTTP service that answers a request path with a JSON
description of the matching file or directory below a configured root. This
project models the decision logic between its configuration and its index
engine, and proves properties of that logic in Dafny. The logic modelled is:

- the levelled logger (`pkg/log`). It covers the five severities None < Error < Warn < Info < Debug,
  the threshold check of each of `Debugf`, `Infof`, `Warnf` and `Errorf`, and `DiscardLogger`.
- `Application.Start` (`internal/app/app.go`). It lower-cases the configured level name and
  maps it to a severity. It builds the functional-option list handed to `index.New`. It defaults
  the listen address and port.
- `Application.Shutdown`, which joins the HTTP server's shutdown error with the index's close error.
- `Application.HandleQuery` (`internal/app/http.go`), which turns the index's answer into a status,
  a content type and a body.

Modules, one per concern:

| file | module | models |
|---|---|---|
| `log.dfy` | `Log` | `pkg/log/log.go` |
| `app.dfy` | `App` | `Start` and `Shutdown` in `internal/app/app.go` |
| `http.dfy` | `Http` | `HandleQuery` in `internal/app/http.go` |
| `text.dfy` | `Text` | the parts of Go's `strings.ToLower` and `fmt` `%d` the core relies on |
| `errors.dfy` | `Errors` | Go's `errors.Join` and `fmt.Errorf("…%w")` as the core uses them |
| `wrappers.dfy` | `Wrappers` | the `Option` type |

Collaborators become parameters:

- `index.New` is `newIndex: seq<IndexOption> -> Option<Error>`. It receives the option list and
  returns the error it reports, or none.
- `Index.QueryBytes` is `queryBytes: string -> (seq<byte>, bool)`.
- The rune mapping of `unicode.ToLower` is `lowerRune: char -> char`. It is constrained only on
  ASCII, by `Text.LowersAscii`, and only in the lemmas that need that.
- The HTTP server's shutdown error and the index's close error are `Option<Error>` arguments.

When the level string matches no case, the code leaves the severity at Go's zero value. That
value is 0, which is Error (not Info).
The model follows the code (`App.SelectLevel`, `App.ParseLevelUnrecognised`).

## Model

| member | source | states |
|---|---|---|
| Log.Code | pkg/log/log.go:12-20 | each named severity stands for an integer between -1 and 3 |
| Log.CodeRoundTrip | pkg/log/log.go:14-20 | the five severities have distinct integers, so the integer identifies the severity |
| Log.ZeroValueIsCodeZero | pkg/log/log.go:14-16 | Error is the severity whose integer is 0, Go's zero value |
| Log.LevelChain | pkg/log/log.go:14-20 | None is -1, Error is 0, and None < Error < Warn < Info < Debug |
| Log.AtLeastIsTotalOrder | pkg/log/log.go:12-20 | the `>=` comparison the logger uses is a total order on the severities |
| Log.Writes | pkg/log/log.go:26-48 | a SimpleLogger writes a method's call exactly when its level enables that method, per the table of enabled methods for each level; DiscardLogger never writes |
| Log.Output | pkg/log/log.go:26-48 | a call writes exactly when its method is enabled; the written line reads back as that method's tag followed by the unchanged format |
| Log.TagIsRecognised | pkg/log/log.go:26-48 | no tag is a prefix of another method's line, so "[DEBUG] ", "[INFO] ", "[WARN] " or "[ERROR] " identifies the method and the rest is the format |
| Log.WritesMatchesTable | pkg/log/log.go:26-48 | Debugf writes only at Debug, Infof at Info and above, Warnf at Warn and above, Errorf at every level except None |
| Log.InfoWritesAt | pkg/log/log.go:32-36 | Infof writes exactly at Info and Debug |
| Log.WritesIsMonotone | pkg/log/log.go:26-48 | a method that writes at some level also writes at every higher level |
| Log.ExtremeLevels | pkg/log/log.go:26-48 | level None writes nothing; level Debug lets every method write its tagged format |
| Log.DiscardWritesNothing | pkg/log/log.go:50-63 | DiscardLogger writes nothing for any method or format |
| App.SelectLevel | internal/app/app.go:30-44 | each name selects its severity, the empty string selects Info, and a string that matches no case selects the zero-value severity |
| App.SelectLevelExactly | internal/app/app.go:30-44 | a severity is selected exactly by its own name, plus "" for Info and every unmatched string for Error; nothing else selects it |
| App.ParseLevel | internal/app/app.go:30-44 | the lower-cased level string selects the severity: every ASCII case variant of a level name selects that level, the empty string selects Info, and an ASCII string that spells no case selects the zero value Error |
| App.ParseLevelIgnoresCase | internal/app/app.go:31 | two level strings that differ only in ASCII letter case select the same severity |
| App.ParseLevelOfName | internal/app/app.go:31-44 | every ASCII case variant of "none", "error", "warn", "info" or "debug" selects that severity |
| App.ParseLevelEmpty | internal/app/app.go:38-41 | an empty level string selects Info |
| App.ParseLevelUnrecognised | internal/app/app.go:30-44 | an ASCII level string that is no case of the switch selects Error, whose integer is 0, and not Info |
| App.BuildOptions | internal/app/app.go:53-64 | the list holds the root option iff root is non-empty, the TTL option iff TTL is non-zero, and the max-size option iff max size is non-zero; it holds nothing else; its order is root, TTL, max size; the logger option is always present and always last |
| App.BuildOptionsRequests | internal/app/app.go:53-64 | applying the list left to right requests exactly the non-zero configuration values and the logger |
| App.OptionsDetermineConfig | internal/app/app.go:53-64 | two configurations whose option lists request the same settings have the same root, TTL and max size |
| App.Listen | internal/app/app.go:79-88 | splitting the listen string at its last colon gives back the effective address and port |
| App.ListenRoundTrip | internal/app/app.go:88 | address, ":" and the decimal port split back into the same address and port, even when the address contains colons |
| App.ListenDefaults | internal/app/app.go:79-88 | an empty address becomes "[::]" and port 0 becomes 80; other values pass through unchanged |
| App.DefaultListen | internal/app/app.go:79-88 | with neither address nor port configured, the listen string is "[::]:80" |
| App.Start | internal/app/app.go:29-93 | the logger has exactly the selected level; the option list is the one built from the configuration; Start fails iff index.New reports an error, and then the error wraps it with the prefix "error creating index: "; otherwise the listen string parses back to the effective address and port; when Info is enabled it writes "[INFO] starting application", followed on success by "[INFO] listening at http://%s:%d"; otherwise it writes nothing |
| App.StartLogsAtInfoOrAbove | internal/app/app.go:45-90 | Start writes log lines iff the selected level is Info or Debug |
| App.Shutdown | internal/app/app.go:95-102 | no error iff both the HTTP shutdown and the index close report none; a single error keeps its message; two errors print HTTP first, then a newline, then the index error; it writes "[INFO] shutting down application" when Info is enabled and nothing otherwise |
| Errors.Join | internal/app/app.go:101 | errors.Join gives nil iff every argument is nil; otherwise its causes are the non-nil arguments in their order, one per non-nil argument, and its message is theirs joined by newlines |
| Errors.NonNil | internal/app/app.go:101 | the result lists every non-nil argument once per occurrence, in argument order, and nothing else; it is empty iff all are nil |
| Errors.PlacesDetermines | internal/app/app.go:101 | that ordering condition admits only one list, so the causes of a join are fully determined by its arguments |
| Errors.JoinOfOneKeepsMessage | internal/app/app.go:101 | joining one error with any number of nils prints that error's message |
| Text.ToLowerIgnoresAsciiCase | internal/app/app.go:31 | for a rune mapping that lower-cases ASCII, strings.ToLower maps strings that differ only in ASCII case to the same string |
| Text.ToLowerOfAscii | internal/app/app.go:31 | on an all-ASCII string, strings.ToLower is plain ASCII lower-casing |
| Text.FormatIntRoundTrip | internal/app/app.go:88 | the decimal text `%d` writes for the port parses back to the same integer, negative values included |
| Text.ParseIntRoundTrip | internal/app/app.go:88 | every string the parser accepts is the text `%d` writes for its value, so each integer has exactly one decimal text |
| Http.HandleQuery | internal/app/http.go:13-25 | the content type is application/json on both branches; status 404 iff the index reports not found, with body `{"code":404}`; status 200 iff found, with the index's bytes as body |
| Http.ServedIsIndexAnswer | internal/app/http.go:14-24 | what a client reads from the response (the body on 200, nothing otherwise) is exactly the index's answer for the request path |
| Http.ResponseDependsOnlyOnPath | internal/app/http.go:14 | the index is asked about the request path itself: indexes that agree on that path give the same response |
| Http.NotFoundIsFixed | internal/app/http.go:9-19 | every not-found response is the same fixed 12-byte response |

## Left out

- The index engine in `pkg/index` is not part of this model. That covers path confinement, filesystem reading, response serialisation and the TTL and size-bounded cache. `index.New` and `QueryBytes` enter only as parameters, so no cache, expiry or listing property is stated.
- Configuration loading and validation (`internal/config`) are not part of this model. The byte-size and duration validators are among them. The configuration record is taken as already loaded.
- The two `main` programs (`cmd/autoindex`, `cmd/index`) are left out: they are flag parsing, signal handling and a shutdown timeout run in a goroutine. `internal/meta` only formats build variables.
- The fasthttp server is left out: its construction, its 10-second timeouts and `ListenAndServe` in a goroutine. The model computes the listen string, but not serving on it.
- The output sink is left out, and so is `Printf` argument substitution. A written line is the tag followed by the unchanged format string.
- `Log.Writes`: a `SimpleLogger` holding an integer other than the five named severities is not modelled. Nothing in the core builds one.
- `App.ParseLevel`: the name and unrecognised-string cases are stated for ASCII case variants and all-ASCII strings only, because `unicode.ToLower` is left open outside ASCII.
- `App.ParseLevelIgnoresCase`: case-insensitivity is proved for ASCII letters only. `unicode.ToLower` is left open outside ASCII, and it does map some non-ASCII runes onto ASCII letters.
- `App.ParseLevelUnrecognised`: stated for all-ASCII strings only, for the same reason. `App.SelectLevel` covers every lower-cased string.
- `App.Start`: TTL, maximum size and port are unbounded integers. The source's fixed-width integer types are not modelled because no arithmetic is done on them.
- `App.Shutdown`: calling it after a failed `Start`, when no HTTP server exists, is not modelled. The callers exit instead.
- Go strings are byte sequences and may hold invalid UTF-8; the model's strings are sequences of Unicode characters. A level string or request path with invalid bytes cannot be represented, so the replacement of such bytes by U+FFFD in `strings.ToLower` is not modelled.
- `Http.HandleQuery`: the path is the string fasthttp's `ctx.Path()` returns. fasthttp's own decoding and normalisation of the request URI is not modelled.
