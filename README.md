# wideq washer decoding and monitoring, in Dafny

This project models two pieces of the `wideq` washer integration.

- **Status decoding** (`wideq/washer.py`):
  - the closed table of 47 `WasherState` machine strings;
  - the read-only `WasherStatus` view over one raw status frame (the enumerated accessors, `is_on`, the two times in minutes, and the reference fields that default to "Off");
  - `WasherDevice.poll`.
- **The example command line** (`example.py`):
  - the display normaliser that turns a catalog label such as `@WM_OPTION_SPIN_800_W` into `800`;
  - the pass that rewrites a frame's values in place;
  - the start / poll / publish / teardown skeleton of `mon`;
  - the country and language checks in `main`;
  - the `example_command` dispatch table.

The catalog, the cloud client and the MQTT broker are parameters of the model, not code in it.

| file | module | models |
|---|---|---|
| `wrappers.dfy` | `Wrappers` | `Option` and `Result` |
| `ascii.dfy` | `Ascii` | ASCII letter classes, case mapping, greedy letter runs |
| `decimal.dfy` | `Decimal` | `int(text)` on a sign and decimal digits, and its inverse |
| `washer_state.dfy` | `WasherStates` | the `WasherState` table: total `ToString`, partial `FromString` |
| `washer_status.dfy` | `Washer` | `WasherStatus` accessors and `WasherDevice.poll` |
| `display.dfy` | `Display` | the label pipeline of `mon`: `re.sub` prefix removal, removing `_W`, underscores to spaces, `str.title()` |
| `monitor.dfy` | `Monitor` | the in-place normalisation pass and the control skeleton of `mon` |
| `cli.dfy` | `Cli` | the two argument validators and the command table |

## Behaviour worth knowing

The model follows the code in each of these cases, even where a reader might expect something else.

- **Prefix removal.** One might expect the normaliser to strip a single vendor prefix at the start of the label. The code uses `re.sub`, which removes every match of the prefix pattern anywhere in the label, left to right, without rescanning.
  - `Display.StripPrefixes` models that.
  - `Display.StripPrefixesWithoutMarker`, `Display.StripPrefixesOfMatch` and `Display.StripPrefixesAfterPlain` state its behaviour.
- **Removing `_W`.** One might expect only a trailing `_W` to go. `.replace("_W", "")` removes every occurrence (`Display.DropWInner`).
- **Title-casing.** One might expect only the first letter of each space-separated word to be capitalised. `str.title()` upper-cases every letter that follows a non-letter, so `RINSE+HOLD` becomes `Rinse+Hold` (`Display.TitleAt`, `Display.RinseHoldExample`).
- **Partial start-up.** One might expect resources acquired before a failed start to be released. In the code, `mon` connects to the broker and then returns without disconnecting in two cases:
  - the device is not a washer;
  - `monitor_start` raises `NotConnectedError`.

  `Monitor.MonTeardown` states that `Disconnect` happens exactly when the polling loop was entered and left.
- **What `poll` returns.** `WasherDevice.poll` is annotated as returning a `WasherStatus`. It actually returns whatever `decode_monitor` produces from the monitor's raw answer, and `mon` uses that as a dictionary. `Washer.Poll` returns the decoded frame.
- **Empty frames.** `mon`'s `if state:` treats an empty frame like no frame and keeps polling (`Monitor.NoData`).

## Model

| member | source | states |
|---|---|---|
| WasherStates.ToString | wideq/washer.py:8-61 | the 47-entry value table, spelled exactly as the enum spells it (`member.value`). It has no contract of its own: `ToStringInjective` and `FromStringSpec` state what the table means |
| WasherStates.FromString | wideq/washer.py:8-61 | `WasherState(value)`: a member is returned only for its own machine string; there is no default member |
| WasherStates.FromStringToString | wideq/washer.py:8-61 | every one of the 47 members is recovered from its machine string |
| WasherStates.ToStringInjective | wideq/washer.py:8-61 | the 47 machine strings are pairwise distinct |
| WasherStates.FromStringSpec | wideq/washer.py:8-61 | `FromString(s)` is member `m` exactly when `s` is `m`'s string, and fails exactly when `s` is no member's string |
| Washer.EnumValue | wideq/washer.py:96-119 | an enumerated accessor fails on a missing key. It yields member `m` exactly when the catalog names the raw code with `m`'s machine string. Any other answer is a failure, never a default |
| Washer.EnumValueReadsOneKey | wideq/washer.py:96-119 | each enumerated accessor depends on its own frame key only |
| Washer.FieldKeyInjective | wideq/washer.py:96-119 | the five accessors read the five distinct keys `State`, `PreState`, `SpinSpeed`, `WaterTemp`, `RinseOption` |
| Washer.EnumValueExample | wideq/washer.py:96-99 | a `State` code that the catalog names `@WM_STATE_RUNNING_W` reads as `RUNNING`; a name outside the table is an error |
| Washer.IsOn | wideq/washer.py:123-126 | fails exactly when `state` fails; is false exactly when the catalog names the state `@WM_STATE_POWER_OFF_W` |
| Washer.IntField | wideq/washer.py:129-139 | `int(data[key])`: succeeds exactly on a present key holding an integer literal; otherwise the failure names the missing key or the unparsable text |
| Washer.Minutes | wideq/washer.py:128-139 | `remaining_time` / `initial_time` succeed exactly when both fields are present integer literals, and then equal `60*H + M`. The hours field is read first, so its failure is the one reported |
| Washer.MinutesRoundTrip | wideq/washer.py:128-139 | for `H >= 0` and `0 <= M < 60`, the total divided by 60 gives back `H` and its remainder gives back `M` |
| Washer.MinutesExample | wideq/washer.py:128-139 | fields "1" and "30" give 90; a frame without the initial-time fields fails on `Initial_Time_H` |
| Washer.LookupReference | wideq/washer.py:141-150 | fails exactly on a missing key; returns the catalog's reference when there is one; the result is "Off" exactly when the catalog has no reference or the reference "Off" |
| Washer.ReferenceValue | wideq/washer.py:152-165 | `course`, `smart_course` and `error` succeed exactly when their key is present, and read "Off" exactly when the catalog has no reference or the reference "Off" |
| Washer.Poll | wideq/washer.py:67-83 | nothing before monitoring starts; nothing for missing or empty data; otherwise exactly the frame decoded from the data |
| Decimal.ParseInt | wideq/washer.py:131-132 | `int(text)` succeeds exactly on an optional sign followed by at least one digit; a leading `-` gives a value `<= 0`, anything else a value `>= 0` |
| Decimal.ParseShowInt | wideq/washer.py:131-132 | reading back the decimal text of any integer gives that integer |
| Decimal.ParseSigned | wideq/washer.py:131-132 | a leading `+` leaves the value unchanged; a leading `-` negates it |
| Display.SegmentMatch | example.py:110-112 | a match of `[A-Z]+_` is at least two characters and fits in the text |
| Display.SegmentMatchSpec | example.py:110-112 | `SegmentMatch(s)` is `n` exactly when the first `n` characters are upper-case letters closed by `_` |
| Display.PrefixMatch | example.py:110-112 | a prefix match is at least six characters and fits in the text |
| Display.PrefixMatchSound | example.py:110-112 | the match found is one the pattern (`@WM_[A-Z]+_` or `@WM_[A-Z]+_[A-Z]+_`) admits |
| Display.PrefixMatchComplete | example.py:110-112 | any match the pattern admits at the start of the text is the one found |
| Display.PrefixMatchSpec | example.py:110-112 | the pattern admits at most one match at a position, and `PrefixMatch` finds exactly it |
| Display.StripPrefixes | example.py:110-112 | `re.sub(pattern, "", s)` never lengthens the text; its behaviour is stated by the three lemmas below |
| Display.StripPrefixesWithoutMarker | example.py:110-112 | text without `@` holds no match and is unchanged |
| Display.StripPrefixesOfMatch | example.py:110-112 | a match at the start is removed, and scanning resumes right after it |
| Display.StripPrefixesAfterPlain | example.py:110-112 | text before a match, free of `@`, is kept as it is, and the match after it is removed: the substitution is not anchored at the start |
| Display.DropW | example.py:110-112 | `.replace("_W", "")` never lengthens the text |
| Display.DropWUnchanged | example.py:110-112 | text with no `_W` is unchanged |
| Display.DropWAppend | example.py:110-112 | the removal distributes over any split that does not cut a `_W` in two |
| Display.DropWTrailing | example.py:110-112 | the trailing `_W` of a machine label disappears |
| Display.DropWInner | example.py:110-112 | a `_W` inside the text is removed as well |
| Display.Spaces | example.py:110-112 | `.replace("_", " ")` keeps the length |
| Display.SpacesAt | example.py:110-112 | character by character, underscores become spaces and nothing else changes |
| Display.SpacesAppend | example.py:110-112 | spacing distributes over concatenation |
| Display.Title | example.py:110-112 | `.title()` keeps the length |
| Display.TitleAt | example.py:110-112 | a letter is upper-cased when it is first or follows a non-letter, and lower-cased otherwise; every non-letter is kept |
| Display.TitleFromAppend | example.py:110-112 | the title-casing scan splits at any point, carrying whether the last character is a letter |
| Display.TitleSpacesJoin | example.py:110-112 | words separated by a non-letter are shown word by word; `_` becomes a space and any other separator stays |
| Display.Normalise | example.py:109-112 | the whole per-value pipeline, with the two-segment prefix for `SpinSpeed`, `RinseOption`, `Soil` and `WaterTemp`; the result has no `_` and is never longer than the label |
| Display.NormaliseMachineLabel | example.py:109-112 | a label made of a prefix match, a body without `@`, and `_W` displays as the body with `_W` removed, spaced and title-cased |
| Display.NormalisePlainLabel | example.py:109-112 | the same, when the body holds no `_W`: the spaced, title-cased body |
| Display.NormaliseUnmarked | example.py:109-112 | a label without `@` or `_W` is only spaced and title-cased |
| Display.Spin800Example | example.py:109-110 | `@WM_OPTION_SPIN_800_W` under `SpinSpeed` shows as `800` |
| Display.NoSpinExample | example.py:109-110 | `@WM_OPTION_SPIN_NO_SPIN_W` under `SpinSpeed` shows as `No Spin` |
| Display.RinseHoldExample | example.py:109-110 | `@WM_OPTION_RINSE_RINSE+HOLD_W` under `RinseOption` shows as `Rinse+Hold` |
| Display.RunningExample | example.py:111-112 | `@WM_STATE_RUNNING_W` under `State` shows as `Running` |
| Display.PowerOffExample | example.py:111-112 | `@WM_STATE_POWER_OFF_W` under `State` shows as `Power Off` |
| Display.TclAlarmExample | example.py:111-112 | `TCL_ALARM_NORMAL` under `State` shows as `Tcl Alarm Normal` |
| Monitor.NormalisedValue | example.py:106-113 | an unmatched value is kept as it is; a matched one becomes the normalised catalog label, without underscores |
| Monitor.NormalisedFrame | example.py:105-113 | the pass keeps the key set; unmatched values stay; matched ones become labels without underscores |
| Monitor.NormaliseInPlace | example.py:105-113 | the loop that rewrites `state[key]` key by key ends with exactly the normalised frame, whatever order the keys are visited in |
| Monitor.PollLoop | example.py:99-117 | the `while True` loop: it ends only by interrupt, by an error from `poll` or by delivering a frame (otherwise it is still polling), and adds at most one action per event plus the publish |
| Monitor.MonSpec | example.py:81-120 | the whole run of `mon` after the client is set up: connect comes first; a device that is not a washer ends the run at once; `monitor_start` comes second for a washer; and a washer that cannot be started ends the run as unavailable |
| Monitor.Mon | example.py:81-120 | the method with its polling loop produces exactly the trace and exit of the run's specification |
| Monitor.PollLoopShape | example.py:99-117 | inside the loop, every action but the last is a poll; the last is a publish exactly when the loop delivers a frame |
| Monitor.PollLoopActions | example.py:99-117 | the loop only polls and publishes |
| Monitor.PollLoopSkips | example.py:100-103 | each turn without data adds one poll, and polling goes on |
| Monitor.FirstFramePublished | example.py:100-115 | the first non-empty frame is published normalised, after one poll per turn, and the loop ends |
| Monitor.InterruptBeforeData | example.py:99-120 | an interrupt before any data publishes nothing; the monitor is still stopped and the broker disconnected, as the last two actions |
| Monitor.MonTeardown | example.py:93-120 | `monitor_stop` and `disconnect` happen exactly when the loop was entered and left, at most once each, as the last two actions. When the washer cannot start, nothing is polled, published or stopped |
| Monitor.StartedTeardown | example.py:118-120 | the teardown part of `MonTeardown` once monitoring has started |
| Monitor.MonPublishesOnce | example.py:103-115 | at most one publish. It happens exactly when `mon` ends by delivering a frame, and it is the action just before the teardown |
| Cli.CountryOk | example.py:228-233 | an accepted country starts with two upper-case letters |
| Cli.CountryOkSpec | example.py:228-233 | the country check accepts exactly 2 or 3 upper-case letters, optionally followed by one final newline |
| Cli.CountryExamples | example.py:228-233 | `US`, `KOR` and `NO` plus a newline pass; `us`, `U`, `USAX` and `US` plus two newlines fail |
| Cli.LanguageOk | example.py:234-240 | an accepted language is at least five characters and starts with two lower-case letters |
| Cli.LanguageOkSpec | example.py:234-240 | the language check accepts exactly 2 or 3 lower-case letters, `-`, then the country shape |
| Cli.EnUsAccepted | example.py:234-240 | `en-US` passes |
| Cli.KorKrAccepted | example.py:234-240 | `kor-KR` passes |
| Cli.LanguageRejected | example.py:234-240 | `EN-us`, `enUS` and `engl-US` fail |
| Cli.ValidateArgs | example.py:228-240 | execution goes on exactly when both checks pass; otherwise the exit status is 1, and the country is reported first |
| Cli.ExampleCommand | example.py:140-152 | only `ls` and `mon` reach a handler. `ls` runs with no arguments and `mon` with exactly one, the device id. Any other command is logged and calls nothing |

## Left out

- MQTT I/O:
  - the broker client and its callbacks (example.py:22-31) are not modelled;
  - `connect`, `publish` and `disconnect` appear only as actions in the trace of `Monitor.Mon`.
- Cloud calls:
  - `get_device`, `model_info` and `client.dump()` are not modelled;
  - the device type check and the `monitor_start` outcome are inputs to `Monitor.Mon`.
- `time.sleep(1)` and the delivery of `KeyboardInterrupt` are not modelled. An interrupt is an event in the input sequence, taken to arrive during the sleep before a poll.
- The jsonpath search over the model description (example.py:104-108) is a foreign library. It is the `Lookup` parameter, so the choice of `match[0]` among several matches is not modelled.
- Parts of the client library are not part of this model: `lookup_enum`, `lookup_reference`, `model.reference_name`, `model.decode_monitor`, `monitor_start`, `monitor_stop` and the monitor handle's own `poll`.
  - The catalog is a pair of functions (`Washer.Catalog`).
  - `decode_monitor` is a function parameter, and the monitor's raw answer is an input.
- `Washer.ReferenceValue`: `course`, `smart_course` and `error` call the library's `lookup_reference`. It is taken to behave like `WasherStatus._lookup_reference`.
- `Washer.EnumValue`: it reports separately a code the catalog does not know and a name outside the table. The source raises `ValueError` for both, on the assumption that `lookup_enum` returns `None` for an unknown code.
- `Decimal.ParseInt`: Python `int()` also accepts surrounding whitespace, `_` digit separators and non-ASCII digits. Only an optional sign followed by ASCII digits is modelled.
- `Display.Title`: only ASCII letters are modelled; `str.title()` on other Unicode letters is not.
- `Display.StripPrefixes`, `Display.DropW`, `Display.Spaces`, `Display.Title`: their own contracts state only length facts. What they compute is stated by the lemmas listed after each in the table. For `StripPrefixes` those lemmas cover text without `@`, and a match preceded by text without `@`. Text where a failed `@WM_` attempt precedes a match is covered only by the definition.
- `Monitor.Mon`:
  - the payload is the normalised frame itself, not its `str()` rendering;
  - exceptions raised while normalising or publishing are not modelled; a failure of `poll` itself is (`PollError`);
  - a run whose events end while it is still polling is reported as `StillPolling`.
- `example()` (example.py:155-198) is not modelled: the OAuth login, the state-file load and save, and the retry loop on `NotLoggedInError`. All of these are session handling and file I/O.
- `ls` printing, `authenticate`, `_force_device`, `argparse` defaults and `WasherStatus.__str__` are not modelled; they are only output and library plumbing.
- `WasherDevice.poll` and the accessors never change the device or the frame. In the model this holds by construction, because they are functions on values.
