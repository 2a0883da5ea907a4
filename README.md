# pushnotify: a verified model of the keyword rule engine

`pushnotify.py` is a ZNC module. It watches private and channel messages and
sends a push notification through an ntfy server when a message matches one
of the user's keywords or regular expressions. This project models the rule
engine inside the module and proves what it does:

- **Keyword normalisation** (`normalize_keyword`, module `Regex`). An input
  `/X/` longer than two characters becomes the pattern `X`. Any other input
  is escaped and wrapped in `\b`.
- **The store `nv` and the two keyword lists** (`get_keywords`,
  `get_raw_keywords`, `save_keywords`, the `OnLoad` defaults; module
  `Keywords`). The lists are stored comma-joined under `raw_keywords` and
  `keywords`. They are read back by splitting on `,`, stripping each piece
  and dropping the empty ones. Saving and reloading gives the lists back only
  when every element is non-empty, already stripped and comma-free. A comma
  inside a stored value splits it on reload. The two lists can then differ
  in length, as for `/a,/`, or one rule can become several: `/a,b/` reloads
  as raw `/a`, `b/` and patterns `a`, `b`. A plain keyword whose escaped form
  keeps the comma is split the same way. Whitespace at the ends of a stored
  value is stripped on reload, so the explicit regex `/ x/` (pattern ` x`)
  comes back as `x`. The model keeps this behaviour as written and proves
  it on the inputs `/a,/`, `/a,b/` and `/ x/`.
- **Dispatch** (`check_message`, `send_push`, `do_push`; module `Dispatch`).
  The stored patterns are tried in order. A pattern that raises `re.error` is
  reported and skipped. The first pattern that matches sends exactly one push
  and ends the scan. The push body is `[context] <sender> text`. The URL is
  the server without its trailing slashes, then `/`, then the topic.
- **Commands** (`OnModCommand`; module `Commands`). The line is stripped and
  split at its first space. The command word is lower-cased. `add`, `del`,
  `topic`, `server` and `test` need an argument and fall through to the help
  text without one. `list` works with or without an argument.
  - `add` refuses a duplicate pattern before trying to compile it.
  - `del` removes the entry at the first position of the pattern from both
    lists.
  - `del` on lists of different lengths can raise `IndexError` in
    `del raw_list[idx]`. The model records this as `raised`.
- **The module object** (module `PushNotify`). Class `Module` holds the store
  `nv`, the `PutModule` lines written so far (`replies`) and the pushes sent
  so far (`pushes`). Its methods mirror the Python methods statement by
  statement. Each method's postcondition ties its effect to the pure
  definitions above, and the lemmas about those definitions carry the
  properties.

The regular-expression library is a parameter, `Regex.Engine`. It has three
uninterpreted total functions: `escape`, `compiles` and `search`.
`compiles(p) == false` stands for `re.error`. `PutModule` lines are recorded
as `Effects.Reply` values that name the branch that wrote them. A `curl` call
is recorded as an `Effects.Push(url, body)`.

Four behaviours of the code are worth knowing:

- `add` checks for a duplicate before it compiles. A duplicate that would not
  compile is therefore reported as existing, not as invalid.
- The command line is split at the first space character only, not at any
  whitespace.
- The lists are joined with a plain `,`, with no escaping.
- `del` on lists of different lengths can raise `IndexError` instead of failing cleanly. It raises when the pattern's first position is past the end of the raw list.

## Model

| member | source | states |
|---|---|---|
| Regex.Normalize | pushnotify.py:72-78 | `normalize_keyword`, the definition: the text between the slashes of an explicit `/X/`, otherwise the escaped input wrapped in `\b`; its properties are Regex.ExplicitYieldsInner, Regex.ExplicitReconstructs, Regex.NonExplicitWrapped and Regex.ShortSlashesWrapped |
| Regex.ExplicitYieldsInner | pushnotify.py:75-76 | every input `/X/` with non-empty `X` normalises to `X`, unescaped |
| Regex.ExplicitReconstructs | pushnotify.py:75-76 | for an explicit input, the pattern between two slashes is the input again: only the two slashes are dropped |
| Regex.NonExplicitWrapped | pushnotify.py:75-78 | any input that is not `/X/` with non-empty `X` becomes `\b` + escape(input) + `\b` |
| Regex.ShortSlashesWrapped | pushnotify.py:75 | `/` and `//` take the escaped branch |
| Text.Strip | pushnotify.py:63 | `str.strip()`: the result has no surrounding whitespace, holds only characters of the input, leaves a stripped string unchanged, and is empty only for an all-whitespace input |
| Text.StripIsTrimmed | pushnotify.py:63 | the result of `str.strip()` is a slice of the input with only whitespace before and after it; together with the result having no whitespace at its ends, this fixes the result |
| Text.RStripChar | pushnotify.py:54 | `rstrip('/')`: a prefix of the input that does not end in `/`; everything removed is `/` |
| Text.Split | pushnotify.py:63 | `split(",")` gives at least one piece and no piece contains the separator |
| Text.Join | pushnotify.py:69-70 | `sep.join(xs)`, the definition; Text.SplitJoin and Text.JoinSplit show it and Text.Split undo each other |
| Text.SplitJoin | pushnotify.py:63-70 | splitting a joined list gives the list back when no element holds the separator |
| Text.JoinSplit | pushnotify.py:63-70 | joining the pieces of a split gives the string back, for every string |
| Text.SplitOnce | pushnotify.py:82 | `split(" ", 1)`: one piece exactly when there is no space, and then it is the whole string; otherwise two pieces, the first without a space |
| Text.SplitOnceRejoin | pushnotify.py:82 | the two pieces joined around the space are the string again |
| Text.SplitOnceAt | pushnotify.py:82 | the split happens at the first space |
| Text.SplitOnceTail | pushnotify.py:82 | in a stripped line, the text after the first space is not blank after stripping |
| Text.Lower | pushnotify.py:83 | `str.lower()` on ASCII letters, the definition; its property is Text.LowerMatchesCaseVariant |
| Text.LowerMatchesCaseVariant | pushnotify.py:83 | `lower()` yields a given lower-case word exactly for the spellings of that word with any of its letters capitalised |
| Text.FirstIndex | pushnotify.py:112 | `list.index`: a position holding the value, with no earlier position holding it |
| Text.IndexOf | pushnotify.py:112 | the linear scan of `list.index` returns that first position |
| Text.RemoveAt | pushnotify.py:113-114 | `del xs[i]`: one entry shorter, entries before `i` unchanged, entries after it shifted down by one |
| Keywords.Get | pushnotify.py:52-53 | `nv.get(key, default)`, the definition: the stored value when the key is present, else the default; Keywords.FreshStoreEmpty, Commands.ListedEndpoint and Dispatch.DefaultEndpoint rest on it |
| Keywords.SetDefault | pushnotify.py:20-21 | a missing key gets the value, a present key keeps its value, no other key changes |
| Keywords.WithDefaults | pushnotify.py:19-28 | after `OnLoad` the four keys are present, missing ones hold their defaults, present ones keep their values, nothing else is added |
| Keywords.WithDefaultsIdempotent | pushnotify.py:19-28 | loading a second time changes nothing |
| Keywords.FreshStoreEmpty | pushnotify.py:19-28 | a freshly loaded empty store has no raw keywords and no patterns |
| Keywords.Clean | pushnotify.py:63 | the comprehension keeps exactly the non-empty stripped pieces, at most as many as there are pieces, and all of them are storable when no piece holds a comma |
| Keywords.ParseList | pushnotify.py:62-66 | every element read back is non-empty, stripped and comma-free |
| Keywords.RawKeywords | pushnotify.py:65-66 | `get_raw_keywords`, the definition: Keywords.ParseList of the stored `raw_keywords`; its properties are Keywords.ParseList, Keywords.FreshStoreEmpty and Keywords.SaveThenLoad |
| Keywords.Patterns | pushnotify.py:62-63 | `get_keywords`, the definition: Keywords.ParseList of the stored `keywords`; its properties are Keywords.ParseList, Keywords.FreshStoreEmpty and Keywords.SaveThenLoad |
| Keywords.JoinList | pushnotify.py:69-70 | `",".join(xs)`, the definition; Keywords.SavedStrings and Keywords.ParseJoin state what is stored and what reads back |
| Keywords.Save | pushnotify.py:68-70 | `save_keywords` writes the two list keys and leaves every other key alone |
| Keywords.SavedStrings | pushnotify.py:68-70 | after a save, the two keys hold the comma-joined lists |
| Keywords.CleanKeepsStorable | pushnotify.py:63 | the comprehension leaves a list of storable elements unchanged |
| Keywords.ParseJoin | pushnotify.py:63-70 | reading a joined list gives it back when every element is storable |
| Keywords.SaveThenLoad | pushnotify.py:62-70 | `save_keywords` and then `get_raw_keywords` / `get_keywords` give both lists back when their elements are storable |
| Keywords.ParseExplicitWithComma | pushnotify.py:63 | the stored string `/a,/` reads back as two raw entries, `/a` and `/` |
| Keywords.ParseTrailingComma | pushnotify.py:63 | the stored string `a,` reads back as the single pattern `a` |
| Keywords.CommaMisalignsOnReload | pushnotify.py:62-70 | saving raw `[/a,/]` with patterns `[a,]` reloads as two raw entries and one pattern: the lists no longer align |
| Keywords.ParseTwoPieces | pushnotify.py:63 | two storable values joined by a comma read back as those two values |
| Keywords.CommaSplitsRule | pushnotify.py:62-70 | saving raw `[/a,b/]` with patterns `[a,b]` reloads as raw `/a`, `b/` and patterns `a`, `b`: one rule becomes two |
| Keywords.ParseLeadingSpace | pushnotify.py:63 | the stored string ` x` reads back as the pattern `x` |
| Keywords.ParseSpacedPair | pushnotify.py:63 | the stored string `x, x` reads back as `x` twice |
| Keywords.SpaceStrippedOnReload | pushnotify.py:62-70 | saving the pattern ` x` reloads it as `x`, while its raw input `/ x/` comes back unchanged |
| Keywords.SpaceDuplicatesOnReload | pushnotify.py:62-70 | saving the patterns `x` and ` x` reloads them as `x` twice |
| Dispatch.PushText | pushnotify.py:48 | the push body `[context] <sender> text`, the definition; its property is Dispatch.PushTextRoundTrip |
| Dispatch.Url | pushnotify.py:54 | the URL: server without trailing slashes, `/`, topic; its properties are Dispatch.UrlIgnoresTrailingSlash and Dispatch.UrlOfBareServer |
| Dispatch.Endpoint | pushnotify.py:52-54 | the URL for the stored topic and server, defaults filled in; its properties are Dispatch.SaveKeepsEndpoint and Dispatch.DefaultEndpoint |
| Dispatch.PushTextRoundTrip | pushnotify.py:48 | the push body gives back sender, context and text when the context has no `]` and the sender no `>` |
| Dispatch.UrlIgnoresTrailingSlash | pushnotify.py:54 | a trailing slash on the server does not change the URL |
| Dispatch.UrlOfBareServer | pushnotify.py:54 | a server without a trailing slash is used as it is, then `/` and the topic |
| Dispatch.SaveKeepsEndpoint | pushnotify.py:52-54 | saving the keyword lists does not change where pushes go |
| Dispatch.DefaultEndpoint | pushnotify.py:52-54 | with the `OnLoad` defaults, pushes go to `https://ntfy.sh/dein-topic` |
| Dispatch.ScanFrom | pushnotify.py:38-45 | the pattern loop of `check_message`, the definition; its properties are Dispatch.ScanFromSpec, Dispatch.FirstMatchWins and Dispatch.InvalidPatternsSkipped |
| Dispatch.FirstMatch | pushnotify.py:39-43 | the whole scan of `check_message` over the stored patterns, from the first; its properties are Dispatch.ScanFromSpec and Dispatch.FiresIffSomePatternHits |
| Dispatch.Diagnostics | pushnotify.py:44-45 | one `PutModule` line per pattern that raised `re.error`, in order; PushNotify.Module.CheckMessage is proved to write exactly these |
| Dispatch.MessagePushes | pushnotify.py:38-49 | the pushes of one message: one push of the formatted body to the endpoint when the scan fires; its properties are Dispatch.FiresIffSomePatternHits and Commands.AddThenMessage |
| Dispatch.ScanFromSpec | pushnotify.py:38-45 | the scan fires on the first pattern that compiles and matches, and on none if there is none; it reports exactly the non-compiling patterns before that point, in order |
| Dispatch.FirstMatchWins | pushnotify.py:39-43 | when some pattern compiles and matches, the scan fires at or before it |
| Dispatch.InvalidPatternsSkipped | pushnotify.py:39-45 | patterns that raise `re.error` do not stop the scan: a later match still fires, and each bad pattern is reported |
| Dispatch.FiresIffSomePatternHits | pushnotify.py:38-45 | a push is sent exactly when some stored pattern compiles and matches |
| Commands.CommandParts | pushnotify.py:82-83 | `command.strip().split(" ", 1)`, the lower-cased word and the stripped argument, the definition; its properties are Commands.ParsedArgumentNonEmpty, Commands.WordAndArgument and Commands.MissingArgumentIsHelp |
| Commands.ParseCommand | pushnotify.py:82-152 | parsing a line and choosing its branch: Commands.Classify of Commands.CommandParts; Commands.Execute runs it, and Commands.WordAndArgument, Commands.MissingArgumentIsHelp and Commands.ParseListWord state its results |
| Commands.Classify | pushnotify.py:85-152 | the `if`/`elif` chain on the command word and the presence of an argument, the definition; its properties are Commands.CommandWords and Commands.CommandWordAnyCase |
| Commands.ParsedArgumentNonEmpty | pushnotify.py:82-86 | a parsed argument is never empty and has no surrounding whitespace |
| Commands.WordAndArgument | pushnotify.py:82-83 | `word argument` parses as the lower-cased word with that argument |
| Commands.MissingArgumentIsHelp | pushnotify.py:82-85 | a line without a space after stripping lists if it is `list`, and shows the help text otherwise |
| Commands.ParseListWord | pushnotify.py:120 | the line `list` lists |
| Commands.CommandWordAnyCase | pushnotify.py:83-152 | a word spelling one of the six command words with any letters capitalised takes that word's branch, and any other word takes the help text |
| Commands.CommandWords | pushnotify.py:85-152 | which branch each lower-case command word takes: with an argument each takes its own branch; without one `list` lists and the other five show the help text |
| Commands.Run | pushnotify.py:85-152 | the effect of one parsed command on the store, the definition; its branches are Commands.AddRule and Commands.DelRule, and Commands.ConfigCommandsTouchOneKey, Commands.ConfigThenTest and Commands.ConfigThenList state the others |
| Commands.Execute | pushnotify.py:81-152 | `OnModCommand` on a line, the definition: Commands.Run of the parsed command; PushNotify.Module.OnModCommand is proved equal to it |
| Commands.AddRule | pushnotify.py:85-102 | `add` never pushes and never raises |
| Commands.DelRule | pushnotify.py:104-118 | `del` never pushes |
| Commands.AddRejects | pushnotify.py:92-102 | a duplicate pattern is refused whatever the compiler would say, and nothing is stored; a new pattern that does not compile stores nothing |
| Commands.AddSaves | pushnotify.py:92-98 | a new pattern that compiles is saved after the existing ones, and its raw input after the existing raw inputs |
| Commands.AddAppends | pushnotify.py:85-98 | reloaded after `add`, both lists are the old lists with the new entry at the end |
| Commands.AddKeepsAlignment | pushnotify.py:85-98 | `add` of storable values keeps the two lists the same length |
| Commands.AddKeepsPatternsDistinct | pushnotify.py:92-98 | no two stored patterns are equal after `add` if none were before |
| Commands.AddTwice | pushnotify.py:85-102 | adding the same storable keyword, whose pattern compiles, twice reports it as existing the second time and changes nothing |
| Commands.Listing | pushnotify.py:126-134 | the lines `list` writes for two lists, a topic and a server, the definition; its properties are Commands.ListingEnds and Commands.ListedLast |
| Commands.ListReplies | pushnotify.py:120-134 | the `list` branch on the store, the definition; its properties are Commands.ListedEndpoint, Commands.AddThenList and Commands.ConfigThenList |
| Commands.ListEntries | pushnotify.py:128-129 | the `zip(raw_list, regex_list)` lines, one per pair up to the shorter list; PushNotify.Module.PutEntries is proved to write them, and Commands.ListedLast states where a new pair appears |
| Commands.ListingEnds | pushnotify.py:133-134 | `list` always ends with the topic and the server |
| Commands.ListedLast | pushnotify.py:126-131 | lists of equal length, ending in a pair whose pattern appears nowhere before, show that pair once, just before the topic and the server |
| Commands.AddThenList | pushnotify.py:120-134 | on aligned lists, after a successful `add`, `list` shows the new pair once, as its last entry |
| Commands.DelSpec | pushnotify.py:104-118 | `del` of an absent pattern changes nothing; for a present one, it saves both lists without the entry at the pattern's first position, the rest keeping their order, and no other key changes; it raises exactly when the raw list is too short for that position, and then changes nothing |
| Commands.AddKeepsEndpoint | pushnotify.py:85-98 | `add` never changes where pushes go |
| Commands.DelKeepsEndpoint | pushnotify.py:104-118 | `del` never changes where pushes go |
| Commands.DelKeepsAlignment | pushnotify.py:104-118 | on aligned lists `del` never raises, and the lists stay aligned |
| Commands.DelRemovesPattern | pushnotify.py:104-118 | with distinct patterns and aligned lists, `del` leaves no copy of the pattern and the rest stay distinct |
| Commands.ConfigCommandsTouchOneKey | pushnotify.py:136-144 | `topic` and `server` write their own key, change no other key, and push nothing |
| Commands.ConfigThenTest | pushnotify.py:136-149 | after `topic` and `server`, a `test` pushes `[TEST] msg` to the new server and topic |
| Commands.ListedEndpoint | pushnotify.py:122-134 | `list` ends with the stored topic and server, or their defaults when unset |
| Commands.ConfigThenList | pushnotify.py:120-144 | after `topic` and `server`, `list` ends with the new topic and server |
| Commands.AddExplicitWithComma | pushnotify.py:85-98 | `add /a,/` stores the raw input `/a,/` and the pattern `a,` |
| Commands.AddWithCommaMisaligns | pushnotify.py:85-98 | on empty lists, `add /a,/` reports success and leaves lists of different lengths |
| Commands.AddSpacedOnce | pushnotify.py:85-98 | on empty lists, `add / x/` reports success with pattern ` x`, which reloads as `x` |
| Commands.AddSpacedTwice | pushnotify.py:85-98 | a second `add / x/` is accepted again, and the reloaded patterns are `x` twice: no longer distinct |
| Commands.DelSpacedNotFound | pushnotify.py:104-118 | after one or two `add / x/`, `del / x/` reports the keyword as not found and changes nothing |
| Commands.PlainKeywordStorable | pushnotify.py:78 | a plain keyword whose escaped form has no comma gives a storable pattern |
| Commands.AddThenMessage | pushnotify.py:38-54 | on a freshly loaded module, after `add kw` for a plain, non-empty, stripped keyword with no comma in it or in its escaped form, whose pattern compiles, a message the pattern matches is pushed once, to `https://ntfy.sh/dein-topic`, with the formatted body |
| PushNotify.Module.constructor | pushnotify.py:16 | a module starts with the store it is given, with no lines written and no pushes sent |
| PushNotify.Module.OnLoad | pushnotify.py:19-28 | the store becomes `WithDefaults` of the old store, and the method returns true |
| PushNotify.Module.FillDefault | pushnotify.py:20-21 | one conditional default assignment |
| PushNotify.Module.PutModule | pushnotify.py:45 | one `PutModule` call appends its line to the lines written and changes nothing else |
| PushNotify.Module.SaveKeywords | pushnotify.py:68-70 | the store becomes `Save` of the old store and the two lists |
| PushNotify.Module.DoPush | pushnotify.py:51-59 | exactly one push of the given body to the endpoint of the store; nothing else changes |
| PushNotify.Module.SendPush | pushnotify.py:47-49 | exactly one push of the formatted body |
| PushNotify.Module.CheckMessage | pushnotify.py:38-45 | the store is unchanged; the lines written are the diagnostics of the scan, and the pushes are those of `MessagePushes` |
| PushNotify.Module.ScanPatterns | pushnotify.py:39-45 | the loop writes one diagnostic per non-compiling pattern before the first match, and pushes once if and only if the scan fires |
| PushNotify.Module.OnModCommand | pushnotify.py:81-152 | the new store, the lines written, the pushes and the `IndexError` are those of `Execute` on the line |
| PushNotify.Module.Perform | pushnotify.py:85-152 | the branch body for a parsed command has the effect `Run` gives it |
| PushNotify.Module.AddKeyword | pushnotify.py:85-102 | the `add` branch has the effect of `AddRule` and pushes nothing |
| PushNotify.Module.DelKeyword | pushnotify.py:104-118 | the `del` branch has the effect of `DelRule`, including the `IndexError` |
| PushNotify.Module.ListKeywords | pushnotify.py:120-134 | the `list` branch writes `ListReplies` of the store and changes nothing else |
| PushNotify.Module.PutListing | pushnotify.py:126-134 | the header or the no-keywords line, the pairs, then topic and server |
| PushNotify.Module.PutEntries | pushnotify.py:128-129 | the `zip` loop writes one line per pair, up to the end of the shorter list |
| PushNotify.Module.SetTopicKey | pushnotify.py:136-139 | the `topic` branch sets `ntfy_topic` and confirms |
| PushNotify.Module.SetServerKey | pushnotify.py:141-144 | the `server` branch sets `ntfy_server` and confirms |
| PushNotify.Module.SendTest | pushnotify.py:146-149 | the `test` branch pushes `[TEST] msg` to the current endpoint and confirms |

## Left out

- `OnPrivMsg` and `OnChanMsg` (pushnotify.py:30-36) are host glue: they pass nick, channel name or `Privat`, and text to `check_message`, and return `znc.CONTINUE`.
- The `curl` subprocess in `do_push` is recorded as one `Push(url, body)`. Its exit status and any delivery failure are not modelled.
- The wording of `PutModule` lines is not modelled: a `Reply` records which branch wrote the line. The text of the `re.error` exception is dropped.
- Regular-expression semantics are not modelled. `re.escape`, `re.compile` and `re.search` are uninterpreted functions of `Regex.Engine`. The `re.IGNORECASE` flag is part of what `search` stands for, and `\b` word boundaries are not interpreted.
- Text.Lower, Text.LowerMatchesCaseVariant: lower ASCII letters only. Python's `str.lower` also lowers other letters, and some of those change the string's length.
- Exceptions other than `re.error` in `check_message` and `add`, and `IndexError` in `del`, are not modelled. The store holds strings only, so no others arise in the model.
- The ZNC `nv` store is a `map<string, string>`. Persistence across restarts is not modelled.
- The `args` and `message` parameters of `OnLoad` are unused by the source and are omitted.
- Commands.AddAppends: requires a storable raw input and pattern. A value with a comma or surrounding whitespace is changed on reload, so the lists are not the old ones plus the new entry (Commands.AddWithCommaMisaligns, Commands.AddSpacedOnce).
- Commands.AddKeepsAlignment: requires a storable raw input and pattern. A comma in one of them can leave lists of different lengths (Commands.AddWithCommaMisaligns).
- Commands.AddThenList: requires a storable raw input and pattern, for the same reason as Commands.AddAppends, and aligned lists: on lists of different lengths `zip` stops before the new pair or pairs the new pattern with an older raw entry.
- Commands.AddKeepsPatternsDistinct: requires a storable raw input and pattern. A pattern with surrounding whitespace can make the reloaded patterns repeat (Commands.AddSpacedTwice).
- Commands.AddTwice: requires a storable raw input and pattern. `add / x/` is accepted twice because the stored pattern ` x` reloads as `x` (Commands.AddSpacedTwice, Commands.DelSpacedNotFound).
- Commands.ConfigThenTest, Commands.ConfigThenList, Commands.AddThenMessage: these scenarios are stated on parsed commands (`Run`, `AddRule`). Parsing literal command lines is covered separately, by Commands.WordAndArgument, Commands.ParseListWord and Commands.CommandWordAnyCase.
- `Dispatch.DecodePushText` is not part of the source. It is an independent reader that shows the push body keeps its three fields apart.
