# ComfyUI-Nuke-Bridge core, modelled in Dafny

ComfyUI-Nuke-Bridge is a plug-in for the Nuke compositor. It does two things:

- **Importer** (`python/comfy_to_nuke.py`): reads a ComfyUI workflow export (a LiteGraph document of nodes and links). For every node with an integer id it creates a placeholder Nuke node: a Read, a Write or a NoOp. Each node gets a unique `CU_<type>` name, is moved to the canvas position, and is tagged with its original type and entry. The importer then rebuilds the links as `setInput` calls, all inside one undo bracket.
- **Launcher** (`python/launch_server.py`): builds the command line that starts a local ComfyUI server and starts it. It streams the server's output into the script editor and announces the server URL the first time a line contains one. It refuses to start a second server while one is running.

The model is split into these modules:

| module | file | contents |
|---|---|---|
| `Base` | `base.dfy` | decimal text, Python whitespace and `rstrip`, whitespace tokenising |
| `Json` | `json.dfy` | JSON values with Python's truthiness, `or`, `dict.get`, `isinstance(v, int)` (bools included), `int()` truncation and `str()` |
| `Workflow` | `workflow.dfy` | `from_json`, type-name resolution, the first-widget file heuristic |
| `Layout` | `layout.dfy` | `_compute_positions`, as a loop proved against a prefix-recursive specification |
| `Links` | `links.dfy` | link-entry resolution and the sequence of `setInput` calls `_connect_nodes` performs |
| `Dag` | `dag.dfy` | the node graph as a class: `_safe_name`, node creation, the connect loop and the import sequence |
| `UrlPattern` | `url.dfy` | a hand-written matcher for the server-URL regular expression, proved sound and complete against a declarative reading of the pattern |
| `ImportExample` | `import_example.dfy` | a worked import of three nodes and two links |
| `Launcher` | `launcher.dfy` | `_build_command`, `_reader_loop` against a transcript specification, and the launcher's process state as a class |

Nuke, the file system, `subprocess` and the clock cannot be modelled directly. Where the code asks them something, the answer is a parameter:

- `taken` is the answer of `nuke.exists`.
- `createFails` says whether creating a Read or Write node raises.
- `maxInputsOf` is the answer of `maxInputs()`.
- `raises` says whether a `setInput` call raises.
- `isFile` is the answer of `os.path.isfile`.
- `running` and `exitAfterWait` are the answers of `poll()`.
- `spawn` is the outcome of `Popen`.
- `chunks` are the successive `readline()` results.

An exception that escapes an operation is modelled as `None`, `Err` or `ImportOutcome.Raised`.

Three facts about the code shape the model:

- The launcher only prints messages and keeps a process handle (launch_server.py:116-165), so the model records the printed notices.
- A link to a node that reports no inputs is connected on slot 0, because `max(1, …)` at comfy_to_nuke.py:174 makes the input count at least 1.
- Echoed lines are right-stripped, as at launch_server.py:92.

## Model

| member | source | states |
|---|---|---|
| Base.DecimalRoundTrip | python/launch_server.py:76-78 | reading back the decimal text of a non-negative port gives the port |
| Base.SplitJoinRoundTrip | python/launch_server.py:81-83 | splitting undoes joining: any list of non-blank, space-free tokens joined with single spaces splits back into the same list |
| Base.SplitWordsKeepsText | python/launch_server.py:81-83 | the flag tokens, glued together, are exactly the flags text with its whitespace removed, so no non-blank character is lost or reordered |
| Base.RStrip | python/launch_server.py:92 | the stripped line is a prefix of the line that does not end in whitespace, and everything removed is whitespace |
| Json.AsInt | python/comfy_to_nuke.py:164-165 | `isinstance(v, int)` holds exactly for ints and bools, and a bool reads as 0 or 1 |
| Json.Truncate | python/comfy_to_nuke.py:142-143 | `int()` of a float truncates toward zero: the result lies within 1 of the value, on the side of 0 |
| Workflow.FromJson | python/comfy_to_nuke.py:120-132 | a document that is not a dict raises; otherwise a truthy top-level node list is used, else a "graph" dict supplies both lists (its links replacing the top-level ones); each list is truthy or `[]` |
| Workflow.TypeValue | python/comfy_to_nuke.py:67 | the type is the first truthy of "type" and "class_type", else "Unknown", so it is always truthy |
| Workflow.KindOf | python/comfy_to_nuke.py:59-68 | the lookup raises exactly for list or dict types; Read exactly for "LoadImage", Write exactly for "SaveImage" and "SaveImageSimple", NoOp for every other hashable type |
| Workflow.WidgetFile | python/comfy_to_nuke.py:45-53 | a file exactly when "widgets_values" is a non-empty list whose first element is a non-empty string, and then it is that string |
| Layout.StepOf | python/comfy_to_nuke.py:137-144 | a non-dict entry raises; an entry without an int id adds nothing; the position is the first truthy of "pos" and "position", else [0, 0], and when it is not a list of at least two elements the entry adds nothing; otherwise both coordinates are truncated to ints and keyed by the node's own id, and a coordinate `float()` rejects raises |
| Layout.ComputePositions | python/comfy_to_nuke.py:135-145 | the loop computes the specification map `Positions`, or raises when it does |
| Layout.PositionsDefined | python/comfy_to_nuke.py:135-145 | the positions are computed exactly when no entry raises |
| Layout.PositionsKeys | python/comfy_to_nuke.py:137-144 | an id has a position exactly when some entry writes one for it |
| Layout.PositionsLastWins | python/comfy_to_nuke.py:144 | for a repeated id the last entry's position wins |
| Links.LinkFields | python/comfy_to_nuke.py:153-162 | only lists of at least five elements and dicts are accepted; a list supplies elements 1, 3 and 4 |
| Links.ResolveLink | python/comfy_to_nuke.py:153-179 | a link is connected exactly when it has the right shape and both ids are ints of created nodes; the slot is the requested one when it lies in the destination's input range (at least 1 wide), else 0 |
| Links.LinkItems | python/comfy_to_nuke.py:150 | a list is iterated; a string or dict yields only skipped entries; None, a bool or a number raises |
| Links.PerformedBound | python/comfy_to_nuke.py:148-192 | the connection count never exceeds the number of link entries |
| Links.PerformedAppend | python/comfy_to_nuke.py:150-191 | the calls for a concatenation of link lists are those of the parts, in order |
| Links.SkippedLinkIsInert | python/comfy_to_nuke.py:161-170 | a skipped entry changes no other entry's outcome |
| Links.PerformedSlotsInRange | python/comfy_to_nuke.py:172-185 | every call made connects two created nodes, on a slot inside the destination's input range, and did not raise |
| Links.AllResolvedAllConnected | python/comfy_to_nuke.py:181-185 | the `max_inputs > 0` guard never skips: when every entry resolves and no call raises, every entry is connected |
| Links.DictZeroIdSkipped | python/comfy_to_nuke.py:157 | in the dict form an id of 0 is falsy, so the link is skipped when no later key supplies the id |
| Dag.SafeName | python/comfy_to_nuke.py:35-42 | the name is not taken: it is the base when that is free, otherwise `base_k` for the smallest free k >= 2; it is never `base_1` |
| Dag.SafeNameUnique | python/comfy_to_nuke.py:35-42 | that rule leaves no choice: two names that both satisfy it for the same base and taken names are equal |
| Dag.SecondImportSuffix | python/comfy_to_nuke.py:35-42 | when the base is taken and `base_2` is free, the rule gives `base_2` |
| Dag.CandidateInjective | python/comfy_to_nuke.py:37-41 | distinct counters give distinct candidate names, so the search never retries a name |
| Dag.DagState.CreateNode | python/comfy_to_nuke.py:66-109 | a type that cannot be looked up raises and creates nothing; otherwise one node of the mapped kind (NoOp when that creation fails) is appended, with its label, file and colorspace knobs; its name is the one the `_safe_name` rule gives for "CU_" and the type against the names before the call, and exactly that name is added to the names |
| Dag.DagState.PlaceAndTag | python/comfy_to_nuke.py:239-252 | positioning and tagging change that one node's position and tags, and nothing else |
| Dag.DagState.AddNode | python/comfy_to_nuke.py:234-252 | for one entry: when the type lookup raises nothing changes; otherwise exactly one node is appended, and it is the finished node for that entry (kind, knobs, position from the layout, tags), named by the `_safe_name` rule against the names before the call; the names grow by exactly that name |
| Dag.DagState.CreateAll | python/comfy_to_nuke.py:233-253 | creation completes exactly when every type can be looked up; the created dict is the specification map; the new nodes are exactly the finished nodes of the entries with an int id, in order; each is named by the `_safe_name` rule against the names before the loop and those of the nodes made before it; the names afterwards are the old names plus the new nodes' names; when a type lookup raises, the nodes left behind are exactly the finished nodes of the entries before the first int-id entry with a list or dict type |
| Dag.CreatedRefsKeys | python/comfy_to_nuke.py:253-261 | the created dict has one node per distinct int id, so the reported node count is the number of distinct ids |
| Dag.IdIndicesCount | python/comfy_to_nuke.py:233-237 | one host node is created per entry with an int id |
| Dag.DagState.ConnectNodes | python/comfy_to_nuke.py:148-192 | the count returned is the number of calls performed, and the graph's inputs are the old inputs with exactly those calls applied |
| Dag.ApplyTouchesOnlyCalledInputs | python/comfy_to_nuke.py:184 | an input no call names keeps its old source |
| Dag.DagState.ImportWorkflow | python/comfy_to_nuke.py:221-261 | "no nodes" exactly for an empty node list, and a summary exactly when nothing raises; the undo bracket is opened and closed together or not at all; the summary counts the distinct ids and the calls performed, and the graph holds the finished nodes, named by the `_safe_name` rule in creation order, and the applied inputs; the names afterwards are the old names plus the new nodes' names; existing nodes are untouched; the bracket is opened exactly when the document parses, its node list is a truthy list and the positions are computed; a raise connects nothing, and a raise inside the bracket leaves exactly the finished nodes of the entries before the first unhashable type, or all of them when the links cannot be iterated |
| ImportExample.ExampleCompletes | python/comfy_to_nuke.py:221-256 | a document with three typed nodes and two list links is imported without an exception |
| ImportExample.ExampleNodes | python/comfy_to_nuke.py:59-68 | its nodes give three distinct ids and become a Read, a NoOp and a Write |
| ImportExample.ExampleLinks | python/comfy_to_nuke.py:148-192 | both of its links are connected on slot 0 between the nodes created for their ids |
| ImportExample.ImportSample | python/comfy_to_nuke.py:221-261 | importing it into any graph reports 3 nodes and 2 connected links, and appends three nodes named by the `_safe_name` rule against the graph's names |
| ImportExample.ImportThreeNodes | python/comfy_to_nuke.py:221-261 | importing it into a fresh graph, whatever names exist, reports 3 nodes and 2 connected links |
| ImportExample.ImportStopsAtListType | python/comfy_to_nuke.py:221-261 | a document whose second node has a list as its type raises, leaving only the first node behind |
| ImportExample.SampleNamesFresh | python/comfy_to_nuke.py:35-42 | into a graph without names, its nodes are named "CU_LoadImage", "CU_Unknown" and "CU_SaveImage" |
| ImportExample.SampleNamesSuffixed | python/comfy_to_nuke.py:35-42 | when "CU_LoadImage" is taken and "CU_LoadImage_2" is free, its first node is named "CU_LoadImage_2" |
| ImportExample.ImportTwice | python/comfy_to_nuke.py:221-261 | importing it twice into an empty graph names the first import's LoadImage node "CU_LoadImage" and the second's "CU_LoadImage_2" |
| UrlPattern.MatchAt | python/launch_server.py:54 | every match is a URL of the pattern (scheme, bracketed or plain host, ':' and digits), and the port digits are taken greedily |
| UrlPattern.BracketReadingWins | python/launch_server.py:54 | when the text after the scheme reads as a bracketed host, ':' and a digit, the match is that reading, with the port digits taken greedily |
| UrlPattern.PlainReadingOtherwise | python/launch_server.py:54 | when no bracketed reading exists, the match is the plain host, ':' and the greedy port digits |
| UrlPattern.MatchAtComplete | python/launch_server.py:54 | whenever a URL of the pattern starts at a position, the matcher finds a match there |
| UrlPattern.FindFrom | python/launch_server.py:98 | the search returns the leftmost position with a match, or fails when no position has one |
| UrlPattern.Search | python/launch_server.py:98-100 | the matched text is a URL of the pattern |
| UrlPattern.SearchFindsLeftmost | python/launch_server.py:98-100 | the search fails exactly when the line contains no URL, and otherwise starts no later than any URL in the line |
| UrlPattern.NoSchemeNoMatch | python/launch_server.py:54 | text in which "http://" and "https://" occur nowhere never matches |
| UrlPattern.BannerExample | python/launch_server.py:51 | `http://127.0.0.1:8188` is matched whole |
| UrlPattern.SecureExample | python/launch_server.py:52 | `https://localhost:443` is matched whole |
| UrlPattern.BracketExample | python/launch_server.py:53 | `http://[::1]:8188` is matched whole, without the path that follows |
| UrlPattern.NoSchemeExample | python/launch_server.py:54 | a bare `127.0.0.1:8188` is not reported |
| Launcher.JoinPath | python/launch_server.py:63-64 | an empty directory gives the file alone; a directory ending in "/" is followed directly by the file; any other directory gets one "/" before the file |
| Launcher.BuildCommand | python/launch_server.py:61-85 | the build fails exactly when neither main.py nor server.py exists, with the source's message; otherwise it runs an existing entry script (main.py preferred) with the interpreter, `-u`, `--listen` and the address, `--port` and `str(port)`, followed by exactly the whitespace-split flag tokens (none for empty flags), so its length is 7 plus the number of tokens |
| Launcher.FlagTokensArriveWhole | python/launch_server.py:73-83 | flags written as tokens separated by single spaces reach the command line as exactly those tokens, after the seven fixed entries |
| Launcher.CommandKeepsSettings | python/launch_server.py:73-83 | the port text reads back as the configured port, and the flag tokens keep all the flags' non-blank text in order |
| Launcher.DefaultCommand | python/launch_server.py:37-47 | with the defaults the server listens on 127.0.0.1, port 8188, with `--log-stdout --disable-auto-launch` |
| Launcher.UntilEof | python/launch_server.py:91 | the loop reads exactly the lines before the first empty read |
| Launcher.ReaderLoop | python/launch_server.py:88-104 | the loop prints exactly the transcript of the lines read before the end of the stream |
| Launcher.QuietTranscript | python/launch_server.py:95-99 | when no line holds a URL, every line is echoed and nothing else is printed |
| Launcher.AnnouncedTranscript | python/launch_server.py:95-102 | when line k is the first with a URL, the lines up to k are echoed, then that line's URL is announced, then the rest are only echoed |
| Launcher.AnnouncedOnce | python/launch_server.py:97-102 | the URL is announced exactly once when some line holds one, and never otherwise |
| Launcher.EchoIsNoAnnouncement | python/launch_server.py:95-101 | an echoed line can never be mistaken for an announcement |
| Launcher.Server.Launch | python/launch_server.py:107-165 | a live server is left alone; a build or spawn failure keeps the handle; a spawned child is streamed, and it is kept as the handle only when it is still running after the wait |
| Launcher.LaunchTwice | python/launch_server.py:116-118 | launching again while the first server runs hands nothing more to `Popen` |

## Left out

- Nuke's API (`createNode`, `exists`, knobs, `setInput`, `maxInputs`, undo, messages): each is a parameter or a recorded effect. The graph is modelled by the names, nodes and inputs the import changes.
- The file dialog, the file-existence check, file reading and `json.load` in `import_comfyui_workflow`: the model starts from the parsed document.
- The Write node's default output path (home directory, `makedirs`, the `.####.png` pattern): file-system side effects. The model records only the Write node's colorspace knob.
- `json.dumps` of the node entry: the model stores the entry itself in the "comfy_json" tag.
- Json.PyStr: the text of a float is carried with the value and not computed from it. NaN and infinities are not modelled.
- Layout.StepOf: a numeric string inside "pos" (which `float()` accepts) is treated as raising.
- Layout.StepOf: very large integer coordinates keep their exact value. `float()` rounds them before `int()`, and raises OverflowError for integers beyond the double range; the model accepts those.
- Links.ResolveLink: every created node handle counts as truthy, so `if not src or not dst` at comfy_to_nuke.py:169 is modelled only by whether the id is in the created dict.
- `nuke.createNode` connects a new node to the node selected at the time. The model assumes nothing is selected during the import, so every new node starts with no inputs.
- Dag.DagState.CreateNode: when creating a Read or Write node succeeds but setting one of its knobs raises, the source leaves that node behind and also creates the NoOp fallback. The model creates only the fallback.
- Base.IsSpace: whitespace is recognised in the Latin-1 range only.
- UrlPattern.MatchAt: `\s` and `\d` are matched for Latin-1 whitespace and ASCII digits only. Python's Unicode classes accept more.
- Launcher.BuildCommand: the flags are split at whitespace only. `shlex` quoting, escapes and its "No closing quotation" error are not modelled.
- Launcher.JoinPath: only POSIX joining is modelled. Windows drive letters and backslashes are not.
- Launcher.Server.Launch: the "Launching" notice carries the command as a list. The `shlex.quote` rendering of it is not modelled.
- Reading the configuration from environment variables, and the `int()` of the port variable failing at import time: the configuration is a parameter.
- `Popen`, the reader thread, `sleep` and the timing of `poll()`: their outcomes are parameters. The reader loop is modelled separately from the launch that starts it.
- `pipe.close()` at the end of the reader loop.
- The plug-in's menu registration files: not part of this model.
