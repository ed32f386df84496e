# hinoto runtime adapters and body reader, in Dafny

This project models the part of hinoto (a Gleam web framework) that connects its
runtime-independent HTTP records to the JavaScript hosts it runs on:

- the **body reader** (`readText`, `readBits`, `readJson`). A body is one of four variants:
  `StringBody`, `BitArrayBody`, `EmptyBody`, or `RequestBody`, which wraps a live host request.
  A live request's body can be drained once, and its `bodyUsed` flag then reports `AlreadyRead`
  to every later read. Failures use four errors: `AlreadyRead`, `ParseError`, `ReadError` and
  `UnsupportedBodyType`;
- the **request normaliser** (`toGleamRequest` for Node, Deno and Cloudflare Workers). It builds
  the canonical record. The method is upper-cased. The scheme is the protocol without its `:`.
  The port is the explicit one, else 443 for `https:`, else 80. The query is the search text
  without its `?`, or absent. Node and Deno skip the body drain for GET, HEAD, OPTIONS and TRACE;
- the **response materialiser** (`toNodeResponse`, `toDenoResponse`, `toWorkersResponse`). It
  passes status and body through and `set`s each header in list order, so the last value of a
  repeated key wins;
- the **WinterJS environment accessor** (`env_get`, `env_set`).

Layout, one module per file:

- `results.dfy`: `Results` (Gleam's `Result`, an `Option`).
- `native.dfy`: `Native`, the host objects the adapters use. `NativeRequest` is a class with a
  mutable `bodyUsed` flag and the drain methods `Text`, `ArrayBuffer` and `Json`. `Headers` is a
  class whose `Set` replaces a key's value.
- `body_reader.dfy`: `BodyReader`.
- `request_normalizer.dfy`: `RequestNormalizer`, the normaliser shared by the three runtimes.
  It takes a `Runtime` (`Node`, `Deno`, `Workers`) for the two places where they differ.
- `response_materializer.dfy`: `ResponseMaterializer`, the shared header fold.
- `node.dfy`, `deno.dfy`, `workers.dfy`: the per-runtime entry points.
- `winterjs.dfy`: `WinterJsEnv`.

Modelling choices:

- A live body's contents are a `Payload`. It is either `NoBody` (a null body) or a `Stream`. A
  stream holds the text and the bytes a drain yields, and the fault a drain raises, if any.
- Following fetch semantics, draining a stream marks the request used whether it succeeds or
  faults. Every reader and normaliser requires and preserves `NativeRequest.Valid()`.
- The host's JSON parser is a parameter `parse: string -> Parsed<J>`. A `Malformed` outcome
  stands for the `SyntaxError` that `JSON.parse` and `req.json()` throw.
- Promises are modelled synchronously. `Settled` is what an awaited promise gives: a value or a
  thrown error.
- The parsed URL is an input (`Url`). Its port is already a number, absent when `url.port` is empty.

What the code does with bodies:

- A request with a null body never becomes used (`NativeRequest.Valid()` states this), so it
  can be read again. `BodyReader.ReadAtMostOnce` therefore requires a stream.
- `ResponseMaterializer.Materialize` passes any body to the host unchanged, as
  `new Response(resp.body, …)` does.
- All three `toGleamRequest` functions read the body eagerly into a string, or use `""`.

## Model

| member | source | states |
|---|---|---|
| `BodyReader.ReadText` | src/hinoto/body_ffi.mjs:27-61 | `StringBody(s)` gives `Ok(s)`. `EmptyBody` gives `Ok("")`. `BitArrayBody` gives `UnsupportedBodyType` with the message naming the variant. A used live request gives `AlreadyRead` and stays unchanged. An unused one is drained: a fault becomes `ReadError(message)`, otherwise the result is `Ok` of the body text. |
| `BodyReader.ReadBits` | src/hinoto/body_ffi.mjs:69-104 | `BitArrayBody(b)` gives `Ok(b)`. `EmptyBody` gives `Ok` of zero bytes. `StringBody` gives `UnsupportedBodyType`. A used live request gives `AlreadyRead` and stays unchanged. An unused one is drained: a fault becomes `ReadError`, otherwise the result is `Ok` of the body bytes. |
| `BodyReader.ReadJson` | src/hinoto/body_ffi.mjs:112-155 | `EmptyBody` gives `ParseError("Cannot parse JSON from empty body")`. `StringBody(s)` is `Ok` exactly when the parser accepts `s`, and `ParseError` with the parser's message otherwise. `BitArrayBody` gives `UnsupportedBodyType`. A used live request gives `AlreadyRead` and stays unchanged. On an unused one, a drain fault becomes `ReadError` and a syntax failure becomes `ParseError`. |
| `BodyReader.ValueReadsRepeat` | src/hinoto/body_ffi.mjs:27-155 | For a body that is not a live request, repeating any of the three reads gives the same result. On `EmptyBody`, text gives `""` and bits give zero bytes, but JSON gives a `ParseError`. |
| `BodyReader.ReadAtMostOnce` | src/hinoto/body_ffi.mjs:39-137 | After any first read of a live request that has a body, the request is used. A following text, bits and JSON read each give `AlreadyRead`. |
| `Native.NativeRequest.Text` | src/hinoto/body_ffi.mjs:48 | `req.text()`: draining a stream marks the request used. A used stream rejects, a faulty one rejects with its fault, otherwise the result is the text. A null body yields `""`. |
| `Native.NativeRequest.ArrayBuffer` | src/hinoto/body_ffi.mjs:90-91 | `req.arrayBuffer()`: the same as `Text`, yielding the bytes (zero bytes for a null body). |
| `Native.NativeRequest.Json` | src/hinoto/body_ffi.mjs:128 | `req.json()`: drain as text, then parse. A parse failure rejects with a `SyntaxError`, and a drain fault rejects with the fault. |
| `Native.Headers.Set` | src/hinoto/runtime/ffi.node.mjs:53 | `headers.set(key, value)` maps `key` to `value` and leaves every other key alone. |
| `RequestNormalizer.ShouldReadBodyIgnoresCase` | src/hinoto/runtime/ffi.node.mjs:9-13 | `shouldReadBody(m)` is false exactly when `m` equals GET, HEAD, OPTIONS or TRACE up to letter case. It gives the same answer for `m` and for upper-cased `m`. |
| `RequestNormalizer.UpperIsIdempotent` | src/hinoto/runtime/ffi.node.mjs:30 | Upper-casing an upper-cased method changes nothing. |
| `RequestNormalizer.DropFirstColonAt` | src/hinoto/runtime/ffi.node.mjs:33 | `replace(':', '')` removes the first `:` only, and keeps the text before and after it. Without a `:`, the string is unchanged. |
| `RequestNormalizer.SchemeOfProtocol` | src/hinoto/runtime/ffi.deno.mjs:32 | For a protocol of the form `scheme:`, the canonical scheme plus `:` gives the protocol back, and the scheme has no `:`. |
| `RequestNormalizer.DefaultPortFollowsScheme` | src/hinoto/runtime/ffi.node.mjs:35 | Without an explicit port, the port is 443 exactly when the scheme is `https`, else 80. |
| `RequestNormalizer.QueryRoundTrip` | src/hinoto/runtime/ffi.node.mjs:37 | The canonical query is present exactly when `search` is non-empty. Putting `?` back in front of it gives `search` back. |
| `RequestNormalizer.Canonical` | src/hinoto/runtime/ffi.node.mjs:29-38 | The record: the method upper-cased (bodiless exactly when the input is one up to case), the header list as the host iterates it, the body as given, the host and path. The scheme is the protocol without its `:`. The port is explicit, else 443 for `https`, else 80. The query is present exactly when `search` is non-empty and gives `search` back; the absent query is `null` exactly on Node. |
| `RequestNormalizer.Normalize` | src/hinoto/runtime/ffi.workers.mjs:12-30 | Shared `toGleamRequest`. When the runtime skips the body for this method, the request is untouched and the body is `""`. Otherwise the body is drained. A drain fault rejects the call; on success the body is the request text. |
| `NodeRuntime.ToGleamRequest` | src/hinoto/runtime/ffi.node.mjs:20-39 | Bodiless methods (any case) are not drained and get body `""`. Other methods get the drained text; the call rejects on a fault or on an already-used stream. A missing query is `null`. |
| `DenoRuntime.ToGleamRequest` | src/hinoto/runtime/ffi.deno.mjs:19-38 | Bodiless methods (any case) are not drained and get body `""`. Other methods get the drained text; the call rejects on a fault or on an already-used stream. A missing query is `undefined`. |
| `WorkersRuntime.ToGleamRequest` | src/hinoto/runtime/ffi.workers.mjs:12-30 | The body is drained whatever the method. A fault or an already-used stream rejects the call. A missing query is `undefined`. |
| `ResponseMaterializer.LastWinsKeys` | src/hinoto/runtime/ffi.node.mjs:50-55 | After setting every header of the list, the table's keys are exactly the list's keys. |
| `ResponseMaterializer.LastWinsValue` | src/hinoto/runtime/ffi.node.mjs:52-54 | A key's value in the table is the value of its last occurrence in the list. |
| `ResponseMaterializer.DistinctKeysKept` | src/hinoto/runtime/ffi.deno.mjs:51-53 | When no key repeats, every header of the list keeps its value in the table. |
| `ResponseMaterializer.Materialize` | src/hinoto/runtime/ffi.node.mjs:46-62 | The loop `set`s the headers into a fresh table, in order, and yields the last-wins table of the list. Without a header list the table is empty. Status and body pass through unchanged. |
| `NodeRuntime.ToNodeResponse` | src/hinoto/runtime/ffi.node.mjs:46-62 | Status and body unchanged. Headers are the last-wins table of the list, or empty without a list. |
| `DenoRuntime.ToDenoResponse` | src/hinoto/runtime/ffi.deno.mjs:45-61 | Status and body unchanged. Headers are the last-wins table of the list, or empty without a list. |
| `WorkersRuntime.ToWorkersResponse` | src/hinoto/runtime/ffi.workers.mjs:37-52 | Status and body unchanged. Headers are the last-wins table of the list, or empty without a list. |
| `WinterJsEnv.EnvGet` | src/hinoto/runtime/ffi.winterjs.mjs:3-9 | `Ok(env[key])` exactly when the table exists and holds `key`, otherwise `Error`. It reads the table and cannot change it. |
| `WinterJsEnv.EnvSet` | src/hinoto/runtime/ffi.winterjs.mjs:11-18 | `Error` and no change when there is no table. Otherwise the call returns `Ok`, maps `key` to `value` and leaves other keys unchanged. A following `EnvGet(key)` gives `Ok(value)`. |

## Left out

- `serve` (Node and Deno): socket binding, server error callbacks, console logging and
  `process.exit` are host I/O.
- URL parsing (`new URL(...)`) and `parseInt` on the port. The parsed protocol, hostname, port,
  pathname and search are inputs.
- JSON syntax. The parser is an uninterpreted parameter.
- Asynchrony. Every promise is modelled as already settled; the layer has no internal concurrency.
- Host `Headers` behaviour beyond "set replaces". Key lower-casing, value combining and the
  host's header iteration order (used for the request's header list) are taken as given.
- The UTF-8 relation between a stream's text and its bytes. The stream holds both views.
- Non-ASCII case mapping in `toUpperCase`. Only `a`–`z` are upper-cased. JavaScript also maps
  `ı` to `I` and `ſ` to `S`, and lengthens `ß` to `SS`.
- The message of the host's "body already used" error. It is a fixed placeholder text.
- Thrown values that are not errors (`e.message` undefined).
- `key in env` in `env_get` also finds keys inherited through the object's prototype
  (`toString`, for one). The table is modelled as its own keys only.
- Gleam's `List.fromArray` and `toArray`. A Gleam list is modelled as the `seq` it holds.
- `ResponseMaterializer.Materialize`: the host `Response` constructor is modelled as total. The
  host throws a `RangeError` for a status outside 200–599, and a `TypeError` for a non-null body
  with status 101, 103, 204, 205 or 304. The model promises pass-through for every status.
- `NodeRuntime.ToNodeResponse`: the same total `Response` constructor as `Materialize`.
- `DenoRuntime.ToDenoResponse`: the same total `Response` constructor as `Materialize`.
- `WorkersRuntime.ToWorkersResponse`: the same total `Response` constructor as `Materialize`.
- `WinterJsEnv.EnvSet`: `env[key] = value` with key `"__proto__"` runs the prototype setter
  and adds no key, so a following `env_get` does not find the value. The model treats
  `"__proto__"` like any other key.
