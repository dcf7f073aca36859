# urlkurztacean URL shortener: a Dafny model of the domain core

This project models the domain core of a small URL-shortening service written in Rust. A long URL is parsed and paired with a generated 8-character short code. The pair is stored in a repository keyed by the code. A later lookup by code returns the stored pair. The model covers these parts:

- the value types: `ShortCode` (a string that is never empty) and `ShortenedUrl` (an unvalidated pair of a URL and a code, displayed as `"{url}:{code}"`);
- the in-memory repository `InMemoryStorage`, a table from code to record with insert-if-absent (`add`/`create`) and lookup (`get`/`get_by_code`);
- the `Service` that orchestrates shortening and lookup over that repository.

Files, one module each:

- `wrappers.dfy` (`Wrappers`): `Option`, `Result` and `Outcome`. `Outcome` stands for Rust's `Result<(), E>`.
- `original_url.dfy` (`OriginalUrls`): the parsed URL. The parser is an input to the model.
- `short_code.dfy` (`ShortCodes`): `ShortCode::new`, `as_ref` and `Display`.
- `shortened_url.dfy` (`ShortenedUrls`): `ShortenedUrl::new`, `Display`, and a decoder for the display form.
- `ports.dfy` (`Ports`): the repository error kinds `CreateUrlError` and `GetByCodeError`.
- `in_memory.dfy` (`InMemory`): specification functions over the table (`Lookup`, `Insert`, `CreateRecord`, `FindByCode`), lemmas about them, and the class `InMemoryStorage`, whose methods are proved against those functions.
- `services.dfy` (`Services`): specification functions `Shorten` and `Resolve`, lemmas about them, the class `Service`, and two client methods that exercise it.

Modelling choices:

- A short code's string has the type `NonEmptyString`. In Rust the private field makes `ShortCode::new` the only way to build a code, so no code is ever empty. The type gives the model the same guarantee, however a code is built.
- The table is keyed by the code's string. Two codes are the same key exactly when their strings are equal.
- The fields of `ShortenedUrl` are readable from every module. The Rust source reads them from other modules too.
- `create` returns the inserted record on success. The application-layer repository contract (src/lib/application/ports.rs:28) promises this, and the service relies on it. The domain-layer contract that `in_memory.rs` implements (src/lib/domain/url_shortener/ports.rs:26) returns `()` instead.
- `Service` holds an `InMemoryStorage` directly. The Rust `Service` is generic over any repository, but this is the only repository modelled. Its `repo` is a `const` field, set once by the constructor.
- The URL parser is a total function parameter `UrlParser`. It returns either the parsed URL's serialization or a diagnostic. The code generator's output is a plain `generated` string argument.
- The service's error is a sum over the four error kinds that can reach it. This stands for `anyhow::Error`, which wraps whichever error was raised without changing it.

## Model

| member | source | states |
|---|---|---|
| `ShortCodes.New` | src/lib/domain/url_shortener/models/short_code.rs:12-18 | fails with `NoEmptyString` exactly for the empty string; any other string is accepted, with no length or charset rule, and stored unchanged |
| `ShortCodes.AsRef` | src/lib/domain/url_shortener/models/short_code.rs:21-25 | the string of every code is non-empty, and `New` rebuilds the same code from it |
| `ShortCodes.Display` | src/lib/domain/url_shortener/models/short_code.rs:27-31 | the display of a code is exactly its stored string |
| `ShortCodes.NewAsRef` | src/lib/domain/url_shortener/models/short_code.rs:12-31 | round trip: for non-empty `s`, `New(s)` succeeds and both its `as_ref` and its display are `s` |
| `OriginalUrls.New` | src/lib/domain/url_shortener/models/original_url.rs:16-21 | succeeds exactly when the parser accepts the input; its display is then the parser's serialization; otherwise it fails with `ParseError` carrying the parser's diagnostic |
| `ShortenedUrls.New` | src/lib/domain/url_shortener/models/shortened_url.rs:12-17 | cannot fail, checks nothing, and keeps the URL and the code unchanged as its two parts |
| `ShortenedUrls.Display` | src/lib/domain/url_shortener/models/shortened_url.rs:20-24 | the display is the URL's display, then `:`, then the code's display, so it starts with the URL text and ends with the code text |
| `ShortenedUrls.SplitDisplayInverts` | src/lib/domain/url_shortener/models/shortened_url.rs:22 | splitting the display at its last colon gives back the URL text and the code text, whenever the code has no colon |
| `ShortenedUrls.DisplayInjective` | src/lib/domain/url_shortener/models/shortened_url.rs:22 | two records with colon-free codes and the same display are the same record |
| `InMemory.Lookup` | src/lib/adapter/storage/in_memory.rs:35-38 | `get` finds a record exactly when the code is a key, and the record found is the one stored under it; under the table invariant, that record carries the code |
| `InMemory.Insert` | src/lib/adapter/storage/in_memory.rs:25-33 | `add` succeeds exactly when the code is absent, and then the keys grow by that code alone and a lookup of it returns the new record; a present code gives `AlreadyExists` and an unchanged table; entries already present never change; the invariant that keys equal record codes is kept |
| `InMemory.CreateRecord` | src/lib/adapter/storage/in_memory.rs:43-46 | `create` changes the table as `add` does, succeeds exactly when `add` does, returns the given record on success and `add`'s error otherwise |
| `InMemory.FindByCode` | src/lib/adapter/storage/in_memory.rs:48-53 | `get_by_code` returns the record `get` finds, and `NotFound` when `get` finds none |
| `InMemory.EmptyStoreNotFound` | src/lib/adapter/storage/in_memory.rs:19-23 | on a new, empty table every lookup is `NotFound` |
| `InMemory.CreateThenFind` | src/lib/adapter/storage/in_memory.rs:25-53 | after a successful `create(r)`, `get_by_code(r.short_code)` returns `r` |
| `InMemory.DuplicateKeepsFirst` | src/lib/adapter/storage/in_memory.rs:27-29 | a second create with the same code fails with `AlreadyExists`, and the first record is still returned |
| `InMemory.CreateAll` | src/lib/adapter/storage/in_memory.rs:43-46 | a run of creates yields one result per call, never changes an entry that was already there, and keeps the table invariant |
| `InMemory.CreateAllOutcomes` | src/lib/adapter/storage/in_memory.rs:25-33 | in a run of creates, call `i` succeeds with its own record exactly when its code is neither in the starting table nor used by an earlier call, and fails with `AlreadyExists` otherwise |
| `InMemory.CreateAllKeys` | src/lib/adapter/storage/in_memory.rs:25-33 | a run of creates adds exactly the codes of the run to the table's keys, and no other key |
| `InMemory.SameCodeOneWinner` | src/lib/adapter/storage/in_memory.rs:25-33 | N creates of one code that is not yet stored: exactly the first succeeds, the other N-1 fail with `AlreadyExists`, and the first record is the one stored |
| `InMemory.AllRejected` | src/lib/adapter/storage/in_memory.rs:27-29 | creates of a code that is already stored all fail with `AlreadyExists` and leave the table unchanged |
| `InMemory.DistinctCodesAllStored` | src/lib/adapter/storage/in_memory.rs:25-33 | creates of pairwise distinct codes that are not yet stored all succeed, and afterwards each record is found under its own code |
| `InMemory.InMemoryStorage.constructor` | src/lib/adapter/storage/in_memory.rs:19-23 | a new storage holds the empty table, which satisfies the invariant |
| `InMemory.InMemoryStorage.Add` | src/lib/adapter/storage/in_memory.rs:25-33 | checks for the code and then inserts it in place; the new table and the result are those of `Insert` on the old table; the invariant is kept |
| `InMemory.InMemoryStorage.Get` | src/lib/adapter/storage/in_memory.rs:35-38 | changes nothing, returns what `Lookup` gives on the current table, and the record it returns carries the code |
| `InMemory.InMemoryStorage.Create` | src/lib/adapter/storage/in_memory.rs:43-46 | delegates to `Add`; the new table and the result are those of `CreateRecord` on the old table |
| `InMemory.InMemoryStorage.GetByCode` | src/lib/adapter/storage/in_memory.rs:48-53 | changes nothing and returns `FindByCode` of the current table |
| `Services.Shorten` | src/lib/application/services.rs:24-33 | an unparsable URL fails with the parse error and leaves the table untouched; a code of length 8 is never refused; success happens exactly when the URL parses, the code is non-empty and the code is not yet stored, and then the record pairs the parsed URL with the generated code and is stored under that code; a collision fails with `AlreadyExists` and there is no retry; every failure leaves the table unchanged |
| `Services.Resolve` | src/lib/application/services.rs:35-41 | the empty code fails with `NoEmptyString` before the table is consulted; for any other code the result is the repository's answer unchanged: the stored record, or `NotFound`; a record found carries the requested code |
| `Services.ShortenThenResolve` | src/lib/application/services.rs:24-41 | after a successful shorten, resolving the generated code returns the same record, and its URL is the parser's serialization of the input |
| `Services.CollisionKeepsFirst` | src/lib/application/services.rs:29-32 | two shortenings that draw the same code: the second fails with `AlreadyExists`, and the code still resolves to the first record |
| `Services.Service.constructor` | src/lib/application/services.rs:44-47 | the service holds exactly the repository it is given |
| `Services.Service.ShortenUrl` | src/lib/application/services.rs:24-33 | changes only the repository; its new table and its result are those of `Shorten` on the old table |
| `Services.Service.GetByCode` | src/lib/application/services.rs:35-41 | changes nothing and returns `Resolve` on the current table |
| `Services.ResolveTwice` | src/lib/application/services.rs:35-41 | two lookups in a row, with no write between them, give the same result |
| `Services.ForcedCollision` | src/lib/application/services.rs:24-41 | on a fresh in-memory service, two URLs shortened with a forced common code: the first succeeds and carries its URL, the second fails with `AlreadyExists`, and a lookup of the code returns the first record |

## Left out

- `src/lib/adapter/outbound/storage/postgres.rs` (the PostgreSQL repository) is not part of this model. It is SQL I/O. All of its failures become `DBError`, so the model never produces `DBError`.
- The HTTP adapter (`src/lib/adapter/inbound/http.rs` and the files under `http/`), `src/bin/server/main.rs` and `src/main.rs` are not part of this model. They are transport, process bootstrap and an unrelated console game.
- URL parsing (`url::Url::parse`, the WHATWG URL Standard's basic URL parser) is not modelled. It is the `UrlParser` parameter, so its normalisation is not modelled either.
- Random code generation (`nanoid!(8)`) is not modelled. The generated code is the caller-supplied `generated` argument.
- The `RwLock`/`Arc` around the table is not modelled. Operations run one after another. This is how the lock serialises writes, but concurrent interleaving is not modelled.
- `InMemory.InMemoryStorage.Add` never returns `LockError`, because lock poisoning (a panic while the write lock is held) is not modelled.
- `InMemory.InMemoryStorage.Get` cannot panic. The source unwraps a poisoned read lock instead of returning an error.
- `async`/`async_trait` is not modelled. Every operation is a sequential method.
- The repository abstraction (a generic trait parameter of `Service`) is not modelled as such. `Service` holds the in-memory repository directly.

## Notes on the source

- The domain-layer repository contract returns `()` from `create` (src/lib/domain/url_shortener/ports.rs:26). The application-layer contract returns the record (src/lib/application/ports.rs:28). The model follows the application layer, as described above.
- `ShortCode` derives neither `Eq` nor `Hash`, yet it is used as a `HashMap` key (src/lib/domain/url_shortener/models/short_code.rs:3, src/lib/adapter/storage/in_memory.rs:15). `ShortenedUrl`'s fields are private but are read from other modules. The model uses string equality for keys and exposes the fields.
- The PostgreSQL repository does not turn a unique-key violation into `AlreadyExists`, and it does not turn a missing row into `NotFound`. Both become `DBError` (src/lib/application/ports.rs:11, src/lib/adapter/outbound/storage/postgres.rs:53-54). That backend is not modelled.
- `ShortCodeError` derives only `Debug` (src/lib/domain/url_shortener/models/short_code.rs:6-9). It implements neither `Display` nor `std::error::Error`, so the `?` that turns it into `anyhow::Error` does not compile (src/lib/application/services.rs:29,39).
- `ShortCode::new` takes a `&str`. The service passes it a `String` (src/lib/application/services.rs:29) and an `impl Into<String>` (src/lib/application/services.rs:39).
- `InMemoryStorage` implements the domain-layer repository trait (src/lib/adapter/storage/in_memory.rs:10,42) and is not `Clone` (src/lib/adapter/storage/in_memory.rs:13). `Service` needs the application-layer trait and `Clone` (src/lib/application/services.rs:6,22). So the source never builds a service over the in-memory repository; its only composition is over PostgreSQL (src/bin/server/main.rs:24-25). The model's `Service` over `InMemoryStorage` is a reconstruction of how the two parts are meant to fit together.
