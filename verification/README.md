# Firmware.ai quota plugin — a Dafny model

This project models the core of the Firmware.ai quota plugin for the opencode
agent host (`src/index.ts`). At activation the plugin looks for an API key. It
reads the `FIRMWARE_API_KEY` environment variable first. Failing that, it tries
three files under the home directory in a fixed order. From each file's text it
extracts the key with a regular expression. Without a key it logs one warning and
stops. With a key it asks the quota endpoint once and logs the report. It then
returns an `event` handler that asks again on every `session.idle` event.

Modules, one per component:

- `Wrappers` (`wrappers.dfy`): the `Option` type that stands for `null`.
- `KeyPattern` (`key_pattern.dfy`): the regular expression
  `(?:FIRMWARE_API_KEY[_\d]*=['"]?)([^'"\s\n]+)` as it is applied by
  `String.prototype.match`.
  - `MatchesAt` is a declarative reading: it lists every way the pattern can
    match.
  - `Extract` is the engine's answer: the leftmost start, then the greedy
    choices.
  - The lemmas prove that the two agree and that the answer is unique.
- `Credentials` (`credentials.dfy`): `getApiKey`.
  - `Resolve` is the strategy chain, written as a function.
  - `GetApiKey` is the source's loop. It is proved equal to `Resolve`. It also
    returns the paths it consulted, so the search order and the early stop are
    stated outright.
- `Quota` (`quota.dfy`): how `fetchQuota` maps a request's outcome to a quota or
  `null`, plus the full and abbreviated report texts.
- `Plugin` (`plugin.dfy`): the activation and `event` decisions.
  - The host is a class. Its `log` and `requests` are sequences that the
    plugin's methods append to.

Modelling choices:

- The environment variable is an `Option<string>`. The filesystem is a map from
  a path to `Missing`, `ReadError` or `Content(text)`. A path is the list of its
  components below the home directory.
- Each request's result is an oracle value: `Threw`, `NotOk` or `Ok(data)`.
  - `Threw` covers a network failure, the 5000 ms abort and a body that is
    not JSON or is JSON `null`.
  - `data` holds the two percentage texts `toFixed(1)` produced. It also holds
    what the locale time formatting produced for the reset text: `Rendered`, or
    `InvalidDate` for a text `Date` cannot parse.
- src/index.ts shows an unparseable reset time as `Invalid Date`, not as the raw
  text: `toLocaleTimeString` does not throw for an invalid date, so the `catch`
  at src/index.ts:73 never runs. `Quota.NoRawFallback` states this.
- `getApiKey` tries exactly three paths (src/index.ts:26-30), the same on every
  platform.

## Model

| member | source | states |
|---|---|---|
| `KeyPattern.MatchShape` | src/index.ts:36 | in any match, the `=` sits exactly where the `[_\d]*` run after the name ends, and the capture opens with a key character, so the quantifiers leave no choice but the capture's end |
| `KeyPattern.MatchAt` | src/index.ts:36 | the attempt at one start position succeeds with a match of the pattern whose capture is maximal, and fails only when no way of matching exists at that position (for example an empty or quoted-empty value) |
| `KeyPattern.FindFrom` | src/index.ts:36 | scanning from a position finds a match with a maximal capture and with no match starting earlier, or reports none exactly when no match starts at or after that position |
| `KeyPattern.Extract` | src/index.ts:36-37 | an extracted key is non-empty and holds no quote or white space; nothing is extracted exactly when the pattern matches nowhere in the text |
| `KeyPattern.MatchUnique` | src/index.ts:36 | two matches at the same start with maximal captures coincide, so the greedy answer is unique |
| `KeyPattern.ExtractIsLeftmostLongest` | src/index.ts:36 | given the leftmost match, with its capture maximal, the extracted key is exactly that capture, so it agrees with the declarative reading of the pattern |
| `KeyPattern.ExtractWitness` | src/index.ts:36 | an extracted key is the maximal capture of a match that no earlier match precedes, and it is followed by the end of the text or by a quote or white space |
| `KeyPattern.SkipsEmptyQuotedValue` | src/index.ts:36-37 | `FIRMWARE_API_KEY=""` followed by `FIRMWARE_API_KEY=abc` yields `abc`: an empty value is passed over for a later assignment |
| `Credentials.KeyInFile` | src/index.ts:33-39 | a missing path or a failed read yields no key and never an error; a readable file yields what the pattern extracts from its text |
| `Credentials.SearchFrom` | src/index.ts:32-40 | the search over the paths from a position on yields, when anything, a well-formed key: non-empty, with no quote or white space |
| `Credentials.SearchEmptyIff` | src/index.ts:32-42 | the search comes back empty exactly when no path from that position on yields a key: a missing file, a failed read or a text without a match never ends the search early |
| `Credentials.Resolve` | src/index.ts:21-43 | a non-empty variable is the result as it is; the result is null exactly when the variable is unset or empty and no candidate file yields a key; a resolved key is never empty |
| `Credentials.FirstHitWins` | src/index.ts:32-37 | when the paths from the search's starting position up to position i yield nothing and path i yields a key, that key is the result, whatever later paths hold |
| `Credentials.LaterPathsIrrelevant` | src/index.ts:32-37 | two filesystems that agree up to and including the first path that yields a key resolve to the same key: later paths play no part |
| `Credentials.EnvPrecedence` | src/index.ts:22-24 | with the variable set and non-empty, the result is its value whatever the filesystem holds |
| `Credentials.SecondPathBeforeThird` | src/index.ts:26-37 | with no key in the first file and keys in the second and third, the second file's key is returned |
| `Credentials.GetApiKey` | src/index.ts:21-43 | the loop returns the resolved key; it consults no path when the variable is set, otherwise a prefix of the candidate list in order, where every consulted path except the last yields nothing, the last yields the key, and all three are consulted when none does |
| `Quota.LocalResetTime` | src/index.ts:63-74 | an empty reset text is kept as it is; a non-empty one becomes its rendering, or `Invalid Date` when it does not parse |
| `Quota.FetchQuota` | src/index.ts:45-80 | the result is null exactly when the request threw or its status was not ok; otherwise it carries the response's figures and reset text, and its local reset time is `LocalResetTime` of that text: an empty one stays as it is |
| `Quota.NoRawFallback` | src/index.ts:63-74 | a non-empty reset text that does not parse is reported as `Invalid Date`, not as the raw text |
| `Quota.FormatQuotaMessage` | src/index.ts:82-84 | the startup report opens with the battery and `Firmware.ai:` lead and ends with the local reset time; `Quota.FullReportFields` reads both figures back from it |
| `Quota.IdleMessage` | src/index.ts:121 | the idle report opens with the battery lead and ends with `% remaining`; `Quota.ReportsAgreeOnRemaining` reads the remaining figure back from it |
| `Quota.ReportsAgreeOnRemaining` | src/index.ts:82-84 | the full report and the abbreviated idle report of one quota can both be read back to the same remaining figure, the one the request returned |
| `Quota.FullReportFields` | src/index.ts:82-84 | the full report reads back to the remaining figure after its lead and the used figure after `% remaining (`, and it ends with the local reset time |
| `Plugin.Host.Log` | src/index.ts:103-109 | a log call appends one record with the plugin's service name, the level and the message, and issues no request |
| `Plugin.Host.Fetch` | src/index.ts:101 | a quota request appends one request carrying the key, logs nothing, and returns the mapped outcome |
| `Plugin.Activate` | src/index.ts:86-112 | activation resolves the key once; it returns the handler holding that key, or no handler when there is none; it issues the startup requests and logs the startup records of `StartupLog` |
| `Plugin.OnEvent` | src/index.ts:113-126 | a `session.idle` event issues one request with the key kept at activation and logs the abbreviated report only on success; any other event changes nothing |
| `Plugin.ActivateThenEvents` | src/index.ts:86-127 | after activation, an idle event and another event: without a key, one warning and no request; with a key, two requests that both carry the key resolved at activation, plus the startup report and the idle report |
| `Plugin.StartupCounts` | src/index.ts:87-110 | without a key: exactly one record, a warning, and no request; with a key: no warning, one request, and one info record carrying the full report exactly when the request succeeded |
| `Plugin.IdleCounts` | src/index.ts:114-124 | an idle request logs one debug record, the abbreviated report, exactly when it succeeded, and nothing otherwise |

## Left out

- `os.homedir()` and `path.join`: a path is modelled as components below the home directory. How those components are joined into an OS path string is not modelled.
- `fs.existsSync` and `fs.readFileSync` are not called. The filesystem map stands for their results. A file that exists but fails to read is `ReadError`, which covers a directory, a denied permission or a race with deletion.
- `fetch`, `AbortController` and the 5000 ms `setTimeout`/`clearTimeout` are not modelled. Time, cancellation and the network are outside the model. Each request's result is a parameter.
- `response.json()` and the `QuotaResponse` cast are not modelled. A body that is not JSON, or is JSON `null`, is part of `Threw`.
- A body that decodes but has the wrong shape (such as `{}`) does not throw. A missing `used` gives the figures `NaN`, and a missing `reset` leaves the local reset time `undefined`. The quota is then not null, and the startup report ends with `Resets: undefined`. The model has no value for an undefined reset time, so it does not represent this case.
- The abort timer is cleared once the response headers arrive (src/index.ts:55). So `response.json()` at src/index.ts:59 has no time limit, and a body that stalls keeps `fetchQuota` pending forever. At startup this also stalls activation, which awaits the request at src/index.ts:101, so the hooks are never returned. The three outcomes of `FetchOutcome` assume that every request ends.
- `Quota.FetchQuota`: the percentage texts come from the `toFixed(1)` arithmetic on the `used` fraction, which is floating point. The model takes these texts as given. So the claim that the two percentages add up to 100 is not stated.
- `Quota.LocalResetTime`: how `new Date(...).toLocaleTimeString("en-US", ...)` renders a time depends on the locale and time zone. The model takes the rendering as given. It models only which text is used when.
- `async`/`await`, the host's `Plugin` type and the transport behind `client.app.log` are not modelled. Only the resulting sequence of log records and requests is kept. How awaited calls interleave with other host activity is not modelled.
- Text is a sequence of Unicode scalar values, whereas JavaScript strings are UTF-16 code units. Every character the pattern names lies in the Basic Multilingual Plane, so the two readings extract the same key.
- Nothing is lost at the `!apiKey` test of activation. The model tests the resolved key for emptiness, as JavaScript does. `Credentials.Resolve` proves that a resolved key is never empty, so that test can only fail on a missing key.
