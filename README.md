# Android action recorder: element lookup, locators, sessions and script generation

This project models the core of a small web tool for recording and replaying taps and swipes on an Android device. The device is driven through `uiautomator2`.

- **Element lookup** (`utils.py`). Given the device's UI hierarchy dump and a tap position, the tool:
  - searches down from the root for an element whose `bounds` attribute contains the point (`find_element_by_coords`). At each matching element it tries the children in document order and returns the first child result that is truthy. An `Element` without children is falsy, so a matching leaf is skipped in favour of a later sibling's truthy result or, failing that, the element itself, which is returned when no child yields a truthy result;
  - describes that element by its `resource-id`, `text`, `class`, `package` and `content-desc` attributes (`parse_element_by_coords`);
  - builds an absolute XPath for it, adding a 1-based `[n]` index to a step only when the parent has several children with that tag (`generate_xpath`).
- **Recording sessions** (`app.py`). Two dictionaries hold the state: `device_connections` and `recording_sessions`. The `connect`, `disconnect`, `start_recording`, `stop_recording` and `record_action` handlers update them. `record_action` stamps each action with the seconds since recording began. For a click, it also attaches the element description under the click.
- **Script generation** (`app.py`). `save_script` turns a session's actions into the text of a Python script:
  - it writes a fixed preamble;
  - it writes `time.sleep(d)` before any action that follows the previous one by more than 0.1 s, with `d` formatted to two decimals;
  - it writes a click by its XPath when the element has one, and by its coordinates otherwise;
  - it writes a swipe by its two points;
  - it writes nothing for any other action type.

Modules:

- `Wrappers`: `Option` and `Result`.
- `Text`:
  - decimal integers, both `str(int)` and `int(str)`;
  - `str.split` and `str.join`;
  - `str.replace` used to delete a character;
  - Python's round-half-even `{:.2f}` formatting of a non-negative real.
- `Hierarchy`:
  - the parsed XML element tree, with paths from the root (`ValidPath`, `At`);
  - the `bounds` parser as written, `ParseBounds`, and a corrected one, `ParseBoundsRepaired`;
  - the recursive search `Find`.
- `Locator`:
  - XPath generation (`Steps`, `Render`, and the loop in `GenerateXPath`);
  - what an XPath selects (`Selects`);
  - reading an XPath back (`ParseXPath`).
- `Resolution`: `parse_element_by_coords`, as the method `ParseElementByCoords` and the function `Describe`, plus the two-node screen scenarios.
- `Script`: the script lines, as `Code` or `Pause` lines, their text, and the generating loop `GenerateScript`.
- `Recorder`:
  - the handlers as pure step functions on a `State` value;
  - the class `Recorder`, whose fields are the two dictionaries and whose methods are the handlers, each proved equal to its step function;
  - lemmas about whole request sequences.

`Build` selects between two builds:
- `AsShipped` is the code as written. Its bounds parser accepts a string exactly when deleting its brackets leaves four comma-separated integers, such as `x1,y1,x2,y2` or `[x1,y1,x2,y2]`; the device writes neither, and every bounds string in the device's `[x1,y1][x2,y2]` format is rejected. The locator is never produced because `Element.getparent` does not exist in `xml.etree`.
- `Repaired` uses the corrected bounds parser and produces the locator.

## Model

| member | source | states |
|---|---|---|
| Text.NatToStringRoundTrip | utils.py:62 | reading back the decimal text of a natural number gives the number |
| Text.IntToStringRoundTrip | utils.py:62 | `int(str(n)) == n` for every integer, negative numbers included |
| Text.SplitJoin | app.py:293 | splitting a newline-join at the separator gives back the parts when no part contains the separator |
| Text.Fixed2Value | app.py:279 | `{:.2f}` of a non-negative value is digits, a point and two digits, and its value in hundredths is the value times 100 rounded half to even |
| Hierarchy.FieldsToRect | utils.py:62 | four comma-separated fields become a rectangle exactly when there are four of them and each is a decimal integer |
| Hierarchy.CanonicalBoundsRejected | utils.py:61-62 | for the dump format `[x1,y1][x2,y2]`, deleting the brackets leaves three comma-separated fields, so the four-way unpacking fails |
| Hierarchy.FormattedBoundsRejected | utils.py:61-76 | no bounds string in the device's format is accepted by the parser as written |
| Hierarchy.RepairedRoundTrip | utils.py:59-62 | the corrected parser reads back every rectangle written in `[x1,y1][x2,y2]` form |
| Hierarchy.Find | utils.py:52-76 | a result exists exactly when the root's bounds parse and contain the point; the result is a valid path, every element along it contains the point, and a non-root result is an element with children |
| Hierarchy.FindPicksFirstTruthyChild | utils.py:65-72 | when the point is inside the root, the search descends into the first child, in document order, whose own search returns an element with children; otherwise it returns the root |
| Hierarchy.LeafChildNeverQualifies | utils.py:68-69 | a child without children is never returned by the loop, because an `Element` with no children is falsy |
| Hierarchy.MissingBoundsIgnoresChildren | utils.py:55-57 | an element with no or empty `bounds` yields nothing, whatever its children |
| Hierarchy.UnparsableBoundsIgnoresChildren | utils.py:60-76 | an element whose bounds do not parse yields nothing, whatever its children |
| Hierarchy.ShippedNeverResolves | utils.py:55-76 | with the parser as written, no tap on a device-formatted screen finds an element |
| Locator.GenerateXPath | utils.py:79-104 | the loop from the element up to the root produces `Render(Steps(root, p))`: `/`, then the tag steps joined by `/` |
| Locator.IndexRule | utils.py:94-100 | a step carries an index exactly when the parent has more than one child with that tag, and the index is one more than the number of same-tag siblings before it |
| Locator.SelectsExactly | utils.py:80-100 | the generated steps select the element they were generated for and no other element of the tree |
| Locator.DistinctNodesDistinctSteps | utils.py:80 | different elements get different step sequences |
| Locator.ParseRender | utils.py:102-104 | for well-formed tags, the rendered XPath text parses back to its steps |
| Locator.DistinctNodesDistinctXPaths | utils.py:80 | for well-formed tags, different elements get different XPath strings |
| Resolution.Target | utils.py:32-34 | the element described is the search result unless that is a falsy element; it is a valid path inside the point's bounds |
| Resolution.TargetLosesOnlyLeafRoot | utils.py:33-34 | the `if not target_element` check discards a found element exactly when it is the root and has no children |
| Resolution.ParseElementByCoords | utils.py:6-49 | with no parsed tree or no target, every field is `None`; otherwise five fields are the target's attributes, and `xpath` is the rendered locator in the repaired build and `None` as shipped |
| Resolution.LeafTapReportsRoot | utils.py:32-72 | on a root with two childless nodes, every tap inside the root's bounds is reported as the root, whether it lies inside the first node, the second, both or neither |
| Resolution.InnerTapReportsSecondNode | utils.py:32-72 | when the second node has children and all of them are leaves, a tap inside it is reported as the second node, whatever the leaves' bounds and whether or not the tap is also inside the first node |
| Resolution.TwoNodeLocators | utils.py:84-104 | the locators there are `/hierarchy` and `/hierarchy/node[2]` |
| Resolution.ShippedTapFindsNothing | utils.py:61-62 | as shipped, the same tap yields an all-`None` description |
| Script.DelayLines | app.py:277-279 | one pause line exactly when the delay exceeds 0.1 s, carrying that delay |
| Script.LocatorOf | app.py:284 | a click replays by locator exactly when an element description is present and its `xpath` is a non-empty string |
| Script.ActionLines | app.py:281-289 | one command line for a click or a swipe, none for any other type, every line a `d.` command |
| Script.ReadActionLine | app.py:282-289 | reading a command line back gives what it replays: a click whose locator holds no `'`, no `\` and no line break replays by that locator (a locator holding any of them does not read back, since Python would end the literal, decode an escape or reject the unterminated literal), a click without a locator replays by its coordinates, and a swipe by its two points, all coordinates unchanged |
| Script.GenerateScript | app.py:264-293 | the loop's text is the preamble plus, per action, its pause and its command, timed from the previous action, joined by newlines |
| Script.BodyFromSnoc | app.py:274-291 | appending an action appends its lines, timed from the last action before it |
| Script.TimingOnlyAddsPauses | app.py:274-291 | leaving the pauses out, the body is exactly the commands of the clicks and swipes, in recording order, whatever the times |
| Script.ScriptTextSplitsIntoLines | app.py:264-293 | with a single-line device id and locators, splitting the file at newlines gives back every script line in order |
| Script.PauseExample | app.py:279 | a delay of 0.42 s is written `time.sleep(0.42)` |
| Recorder.ConnectStep | app.py:63-89 | success exactly when already connected or the device is reachable; a new connection adds the id and an empty stopped session for it, and every other connection and session stays as it was; otherwise nothing changes |
| Recorder.DisconnectStep | app.py:93-109 | always success; the device's connection and session are gone, and every other device's are untouched; the new state is the old one less that id |
| Recorder.StartStep | app.py:141-163 | success exactly when connected, leaving a fresh empty session started now and every connection and other session as it was; otherwise `NotConnected` and no change |
| Recorder.StopStep | app.py:167-192 | success exactly when connected with a session, whose start time becomes `None` with its actions kept, every connection and other session as it was; otherwise no change, with `NotConnected` or `NotRecording` |
| Recorder.RecordStep | app.py:196-244 | while recording, an action is appended with its time since the start and, for a click, its element; a failed dump stores nothing; a failed replay is reported after the action is stored; when not recording nothing changes; a request that stores nothing is refused with `NotConnected`, `NotRecording` or, for a failed dump, `DeviceError` |
| Recorder.SaveReply | app.py:248-293 | the script of the session's actions exactly when connected with a non-empty session; `NotConnected` or `NothingToSave` otherwise |
| Recorder.Recorder.constructor | app.py:21-22 | both dictionaries start empty |
| Recorder.Recorder.Connect | app.py:63-89 | updates the fields as `ConnectStep` says and keeps every connection paired with a session |
| Recorder.Recorder.Disconnect | app.py:93-109 | updates the fields as `DisconnectStep` says and keeps the pairing |
| Recorder.Recorder.StartRecording | app.py:141-163 | updates the fields as `StartStep` says and keeps the pairing |
| Recorder.Recorder.StopRecording | app.py:167-192 | updates the fields as `StopStep` says and keeps the pairing |
| Recorder.Recorder.RecordAction | app.py:196-244 | updates the fields as `RecordStep` says, describing the click through `ParseElementByCoords`, and keeps the pairing |
| Recorder.Recorder.SaveScript | app.py:248-293 | replies as `SaveReply` says, building the text with `GenerateScript` |
| Recorder.RecordAllAppends | app.py:204-228 | while recording, a run of posted actions is stored in order, each stamped relative to the start; nothing else changes |
| Recorder.RecordAllWhileStopped | app.py:198-209 | actions posted to a device that is not recording change nothing |
| Recorder.StopKeepsScript | app.py:181-182 | stopping does not change what would be saved |
| Recorder.DisconnectLosesRecording | app.py:95-99 | after a disconnect nothing can be saved, and reconnecting starts with an empty session |
| Recorder.RunKeepsConsistent | app.py:63-244 | every sequence of requests keeps each connected device paired with a session |
| Recorder.StopConnectedSucceeds | app.py:167-182 | with every connected device paired with a session, stopping a connected device succeeds |
| Recorder.StopNeverNotRecording | app.py:174-178 | after any sequence of requests from the empty start, `stop_recording` succeeds exactly when the device is connected and answers `NotConnected` otherwise; its "not recording" reply is never given |
| Recorder.RecordingWorkflow | app.py:141-293 | connect, start at `t0`, post actions, stop and save gives the script of exactly those actions, stamped relative to `t0` |

## Left out

- Flask is not modelled: routing, `jsonify`, the message strings and `request.json`. An action arrives already decoded as a `Gesture`. Malformed JSON and missing keys, which the handlers turn into `{'success': False}` through `except Exception`, are not modelled.
- `get_device_list`, `screenshot`, `index`, the saved-scripts listing and the download handler are outside this core.
- The device calls are parameters:
  - `u2.connect` succeeding is `reachable`;
  - `dump_hierarchy` is a `Screen`;
  - `click` and `swipe` succeeding is `dispatched`;
  - `time.time()` is `now`.
- `save_script` writing the file and naming it with a timestamp (app.py:295-305) is not modelled. `SaveReply` is the text that would be written.
- XML parsing (`ET.fromstring`) is not modelled. The element under the tap is looked up in an already parsed tree, and a document that fails to parse is `None`.
- Text.ParseInt: Python's `int()` also accepts surrounding whitespace, underscores and non-ASCII digits. The model accepts only an optional sign and ASCII digits. None of the extra forms occur in bounds written by the device.
- Action times are exact reals, not binary floats, so `Text.Fixed2` rounds the exact value half to even. Float representation error, for example `0.125` against `0.1250000001`, is not modelled.
- Script: the script's lines are kept as `Code` and `Pause` values and turned into text only when joined. The text is the same, character for character, as the strings the source appends.
- Script.LocatorOf: the XPath is pasted between single quotes without escaping, as the source does (app.py:285). For a locator holding `'`, `\` or a line break (`\n` or `\r`), `Script.ReadActionLine` shows only that the line does not read back as a click by that locator; what Python then makes of the line (a syntax error, or a different string after escape decoding) is not modelled.
- Tap and swipe coordinates are modelled as integers. The posted JSON values are formatted into `d.click(...)` and `d.swipe(...)` unchanged (app.py:287-289), and only the type hint at utils.py:6 says they are integers; a float or a string coordinate is not modelled.
- Locator.DistinctNodesDistinctXPaths and Locator.ParseRender assume tags without `/`, `[` or `]`. XML names cannot contain these, and uiautomator2's hierarchy dumps use no namespaces, so ElementTree's `{uri}local` form of a namespaced tag, whose URI would contain `/`, does not arise; the model does not derive either fact.
- Concurrent requests on the shared dictionaries are not modelled; every request is one atomic step.
- `record_action` has no rate limiting and no `lastActionTime`. Every action posted while recording is stored, however close in time it is to the previous one, and the model does the same.
- `stop_recording` succeeds for any connected device with a session, even when it is not recording. `start_recording` discards the actions recorded before. The model does both.
- `save_script` writes a swipe with no duration argument, and the model writes none.
- Scenario: on a root holding two childless `node` elements, a tap inside the second one is reported as the root, with locator `/hierarchy`, not `/hierarchy/node[2]`. A childless element is falsy, so `find_element_by_coords` skips it (`Resolution.LeafTapReportsRoot`). The second node is reported, with locator `/hierarchy/node[2]`, once it has children of its own, so that it is truthy, and none of them yields a truthy result; `Resolution.InnerTapReportsSecondNode` proves this when those children are leaves (`Resolution.TwoNodeLocators` gives the locator). A child that has children itself and contains the tap would take the result deeper; the model has no scenario lemma for that case beyond `Hierarchy.FindPicksFirstTruthyChild`.
- A replay that fails on the device is reported as a failure, but the action stays in the session (`Recorder.RecordStep`). A dump that fails stores nothing.

## Findings

| source | as written | input that shows it | evidently intended | confidence | as-written member | corrected member |
|---|---|---|---|---|---|---|
| utils.py:61-62 | all brackets are deleted before splitting at commas, so `[0,0][1080,1920]` becomes `0,01080,1920`, which has three fields; the unpacking into four names raises `ValueError`, which is swallowed, so no element is ever found | bounds `[0,0][1080,1920]`, any tap | read the four integers of `[x1,y1][x2,y2]` | high (not executed) | Hierarchy.CanonicalBoundsRejected | Hierarchy.RepairedRoundTrip |
| utils.py:89 | `xml.etree.ElementTree.Element` has no `getparent`, so `generate_xpath` raises `AttributeError`. The exception is caught at utils.py:46, which leaves `xpath` as `None`, and every click replays by coordinates | any tap that resolves to an element | the absolute XPath from the root to the element, with `[n]` indices among same-tag siblings | high (not executed) | Resolution.ParseElementByCoords | Locator.GenerateXPath |
