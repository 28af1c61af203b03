# simple-chat-ui, modelled in Dafny

This project models the two pieces of logic in the simple-chat-ui single-page chat interface.

- **The chat page's exchange state machine** (`src/pages/ChatPage.tsx`, module `Chat`). A session holds three things:
  - the ordered `messages` list of `{id, content, isUser}`;
  - the draft `inputText`;
  - the `isAiTyping` flag.

  A send works in steps:
  - it clears the draft;
  - it appends the user's message and then an empty assistant placeholder;
  - it raises the flag;
  - it fills the placeholder, either with the streamed reply (the whole accumulator after every chunk), with a fixed configuration error, or with a fixed apology;
  - it lowers the flag on every path.

  `ChatSession` is a class with those three fields. It also has fields for the exchange's own variables: the placeholder id and the `streamedContent` accumulator. Its methods are `Submit`, `ConfigMissing`, `ReceiveChunk`, `Fail` and `Finish`, plus the read loop `ReadBody`. `Respond` is the `try`/`catch`/`finally` part, and `SendMessage` and `KeyDown` are the handlers. The methods are proved against the pure specification `ExchangeMessages` / `ExchangeRequest`, and the lemmas beside them prove what that specification promises.
- **`getNavigationDirection`** (`src/lib/utils.ts`, module `Navigation`). It reduces a route to its base route with a chain of prefix tests, looks the base up in a fixed rank table, and returns `Up`, `Down` or nothing (`null`).

Module `JsText` models `String.prototype.trim`, with the whitespace set of section 12.2 and section 12.3 of ECMA-262, because the submit guard depends on it. Module `Wrappers` holds `Option`.

Design choices:
- The environment and the network are parameters:
  - the two configuration values are `Option<string>`, and both `undefined` and `""` are falsy;
  - the clock reading `now` yields the ids `UserId(now)` and `AiId(now)`;
  - what the backend does is a `Response`: `fetch` rejects, a non-OK status, a null body, or a body of already decoded chunks that ends with done or with a read that throws.
- The text area is disabled only while `isAiTyping` (`src/pages/ChatPage.tsx:200`). The send button uses the full guard, so it is also disabled while the trimmed draft is empty (`:205`).

## Model

| member | source | states |
|---|---|---|
| `JsText.Trim` | src/pages/ChatPage.tsx:36 | `s.trim()` is never longer than `s`, and a non-empty string with no whitespace at either end is returned unchanged; `TrimStartSpec`, `TrimEndSpec` and `TrimSpec` state exactly what is cut |
| `JsText.IsBlank` | src/pages/ChatPage.tsx:36 | `!s.trim()`: the empty draft is blank, and a draft whose first character is not whitespace is not; `TrimSpec` gives the exact condition |
| `JsText.TrimStartSpec` | src/pages/ChatPage.tsx:36 | `trim`'s first half drops exactly the leading whitespace: the result is a suffix of the input, everything cut is whitespace, and the result does not start with whitespace |
| `JsText.TrimEndSpec` | src/pages/ChatPage.tsx:36 | `trim`'s second half drops exactly the trailing whitespace: the result is a prefix, everything cut is whitespace, and the result does not end with whitespace |
| `JsText.TrimSpec` | src/pages/ChatPage.tsx:36 | `s.trim()` is empty (falsy) iff every character of `s` is ECMAScript whitespace; otherwise it starts and ends with non-whitespace |
| `Chat.SubmitAccepted` | src/pages/ChatPage.tsx:36 | the guard `!(!inputText.trim() \|\| isAiTyping)` lets a send through only with no reply in progress and a non-empty draft; `SubmitAcceptedIff` gives the exact condition |
| `Chat.SubmitAcceptedIff` | src/pages/ChatPage.tsx:36 | the submit guard lets a send through iff no reply is in progress and the draft holds a non-whitespace character |
| `Chat.SubmitsOnKey` | src/pages/ChatPage.tsx:146 | the key test `e.key === 'Enter' && !e.shiftKey` never holds while Shift is down |
| `Chat.KeyDownCases` | src/pages/ChatPage.tsx:144-151 | Enter without Shift submits; Shift+Enter and every other key do not |
| `Chat.Concat` | src/pages/ChatPage.tsx:110-117 | the accumulator `streamedContent` after the given chunks starts with the first chunk; `ConcatAppend` and `ConcatGrows` state how it grows |
| `Chat.ConcatAppend` | src/pages/ChatPage.tsx:117 | appending a chunk to the accumulator extends the accumulated text by exactly that chunk |
| `Chat.ConcatGrows` | src/pages/ChatPage.tsx:110-127 | during streaming the shown text only grows: the text after `k` chunks is a prefix of the text after any later count |
| `Chat.ConcatExample` | src/pages/ChatPage.tsx:110-124 | the chunks `"He"`, `"llo"` accumulate to `"Hello"` |
| `Chat.WithContent` | src/pages/ChatPage.tsx:118-124 | the replace-by-id `map` keeps the list's length |
| `Chat.WithContentAt` | src/pages/ChatPage.tsx:118-124 | the replace-by-id `map` works message by message: place, id and role are kept, and a message gets the new content iff its id matches |
| `Chat.WithContentAtLast` | src/pages/ChatPage.tsx:74-80 | with distinct ids, replacing by the placeholder's id changes the last message's content and nothing else |
| `Chat.SetLastKeepsShape` | src/pages/ChatPage.tsx:132-137 | changing the placeholder's content keeps roles alternating and ids distinct |
| `Chat.FinalReply` | src/pages/ChatPage.tsx:71-138 | the placeholder ends as the configuration error, the apology, or the concatenated stream, and it is the configuration error whenever either value is missing or empty |
| `Chat.ExchangeMessages` | src/pages/ChatPage.tsx:34-142 | one whole send leaves the length of the message list unchanged iff the draft is blank, and adds at most two messages; `ExchangeAppendsPair` and `ExchangeKeepsShape` say which, and `ChatSession.SendMessage` is proved to produce this list |
| `Chat.ExchangeRequest` | src/pages/ChatPage.tsx:49-96 | a send issues a request only for a draft that is not blank, and its payload has exactly one message more than the earlier list; `RequestExcludesPlaceholder` gives the exact condition and payload |
| `Chat.ExchangeAppendsPair` | src/pages/ChatPage.tsx:38-57 | a blank draft changes nothing; any other send keeps the earlier messages in order and appends exactly a user message with the untrimmed draft and then the assistant reply |
| `Chat.RequestExcludesPlaceholder` | src/pages/ChatPage.tsx:49 | a request is sent iff the draft is not blank and both configuration values are set; its payload is the new list without the placeholder |
| `Chat.AppendPairKeepsShape` | src/pages/ChatPage.tsx:42-57 | appending a user message and an assistant message stamped with a later clock reading keeps roles alternating and ids distinct |
| `Chat.ExchangeKeepsShape` | src/pages/ChatPage.tsx:34-142 | every exchange, whatever its outcome, keeps the list alternating user/assistant with distinct ids |
| `Chat.ChatSession.constructor` | src/pages/ChatPage.tsx:14-16 | a new page has no messages, an empty draft and the flag down |
| `Chat.ChatSession.SendDisabled` | src/pages/ChatPage.tsx:205 | the send button is disabled whenever the draft is empty; `ChatSession.Submit` proceeds exactly when it is enabled |
| `Chat.ChatSession.InputDisabled` | src/pages/ChatPage.tsx:200 | whenever the text area is disabled, the send button is disabled too |
| `Chat.ChatSession.DisabledWhileReplying` | src/pages/ChatPage.tsx:200-205 | the text area is disabled iff a reply is in progress, and the send button is disabled then too |
| `Chat.ChatSession.Edit` | src/pages/ChatPage.tsx:196 | typing replaces the draft and changes nothing else |
| `Chat.ChatSession.Submit` | src/pages/ChatPage.tsx:36-64 | a send goes ahead iff the send button is enabled; otherwise nothing changes; if it does, the draft is `""`, the list is the old list plus the user message and an empty placeholder, the flag is up, and the payload is the old list plus the user message |
| `Chat.ChatSession.ConfigMissing` | src/pages/ChatPage.tsx:71-83 | the placeholder becomes exactly the configuration error, the flag is lowered, and no other message changes |
| `Chat.ChatSession.ReceiveChunk` | src/pages/ChatPage.tsx:113-124 | after each chunk the placeholder holds the concatenation of all chunks so far; the count and every other message are unchanged |
| `Chat.ChatSession.Fail` | src/pages/ChatPage.tsx:129-138 | the placeholder becomes exactly the apology, and any partial stream is dropped; no other message changes |
| `Chat.ChatSession.Finish` | src/pages/ChatPage.tsx:139-141 | the flag ends false and no message changes |
| `Chat.ChatSession.ReadBody` | src/pages/ChatPage.tsx:107-127 | the read loop hands every chunk to the placeholder in order; it fails iff a read throws |
| `Chat.ChatSession.Respond` | src/pages/ChatPage.tsx:66-141 | on every path the flag ends false and the placeholder ends as `FinalReply`; a request for the messages before the placeholder is sent unless the configuration is missing |
| `Chat.ChatSession.SendMessage` | src/pages/ChatPage.tsx:34-142 | the whole handler: the list and the request are those of `ExchangeMessages` and `ExchangeRequest`, the draft is cleared unless it was blank, and the flag ends false |
| `Chat.ChatSession.KeyDown` | src/pages/ChatPage.tsx:144-151 | Enter without Shift runs a whole send; any other key leaves messages and draft as they were and sends nothing |
| `Navigation.StartsWith` | src/lib/utils.ts:25-29 | a string that starts with a non-empty prefix is non-empty and shares its first character; `DiffersAt` and `PrefixesAgree` give the other facts used |
| `Navigation.BaseRoute` | src/lib/utils.ts:24-36 | a base route that differs from its path is a key of the rank table |
| `Navigation.Rank` | src/lib/utils.ts:11-21 | a base has a rank iff it is one of the nine table keys, and every rank is at most 8 |
| `Navigation.GetNavigationDirection` | src/lib/utils.ts:38-41 | the result is `null` iff either base is not one of the nine table keys |
| `Navigation.DownIffHigherRank` | src/lib/utils.ts:47 | with both bases known, the result is `Down` iff `to` ranks strictly higher, and `Up` iff it does not |
| `Navigation.SameBaseIsUp` | src/lib/utils.ts:47 | two paths with the same known base, including `from == to`, give `Up` |
| `Navigation.Antisymmetry` | src/lib/utils.ts:41-47 | `Down` reversed is `Up`; `null` reversed is `null`; `Up` between different ranks reversed is `Down` |
| `Navigation.PrefixesAgree` | src/lib/utils.ts:28-29 | two prefixes of one string agree on every position they share |
| `Navigation.DiffersAt` | src/lib/utils.ts:25-29 | a string that differs from a prefix at a shared position does not start with it |
| `Navigation.NoRulePrefix` | src/lib/utils.ts:24-29 | a path that is not `/` and starts with none of `/project`, `/all-tasks`, `/docs`, `/life/skills`, `/life` is its own base |
| `Navigation.DiffersFromEveryRule` | src/lib/utils.ts:25-29 | a path whose character at index 0 or 1 differs from every rule prefix's character there starts with none of the rule prefixes |
| `Navigation.ProjectIsHome` | src/lib/utils.ts:25 | every path starting with `/project` has base `/`, rank 4 |
| `Navigation.LifeSkillsPrecedence` | src/lib/utils.ts:28-29 | a path under `/life/skills` keeps that base; any other path starting with `/life`, `/lifestyle` included, has base `/life` |
| `Navigation.BaseRouteIdempotent` | src/lib/utils.ts:24-29 | normalising a base again returns it unchanged |
| `Navigation.KnownBaseIff` | src/lib/utils.ts:11-41 | a path's base has a rank iff the path is `/`, `/finance`, `/travel`, `/recipes` or `/chat`, or starts with `/project`, `/all-tasks`, `/docs` or `/life` |
| `Navigation.UnrankedExamples` | src/lib/utils.ts:41 | `/travel/x` and `/unknown` give `null` |
| `Navigation.LookupAsWritten` | src/lib/utils.ts:38-39 | `routeOrder[key]` is `undefined` iff the key is neither a table key nor a property inherited from `Object.prototype` |
| `Navigation.InheritedPrimitive` | src/lib/utils.ts:47 | the string an inherited `routeOrder` value becomes when compared is non-empty, and it starts with `[` (`"[object Object]"`) exactly for `__proto__`; every other key gives a built-in function's source text |
| `Navigation.LexLess` | src/lib/utils.ts:47 | string `<` (a proper prefix is smaller, otherwise the first differing character decides) never holds between equal strings |
| `Navigation.LexLessAsymmetric` | src/lib/utils.ts:47 | string `<` is a strict order: it never holds both ways, nor from a string to itself |
| `Navigation.GetNavigationDirectionAsWritten` | src/lib/utils.ts:38-47 | as written, the result is `null` iff a lookup is `undefined`; `Down` needs both lookups to be ranks (compared as numbers) or both inherited (compared as strings), since a rank against an inherited value compares with NaN |
| `Navigation.InheritedKeyCounterexample` | src/lib/utils.ts:38-41 | as written, `("/chat", "toString")` gives `Up` where the intended result is `null` |
| `Navigation.InheritedPairCounterexample` | src/lib/utils.ts:38-47 | as written, `("__proto__", "toString")` compares `"[object Object]"` with a function's source text as strings and gives `Down` where the intended result is `null` |
| `Navigation.SlashBase` | src/lib/utils.ts:24-29 | the base of a path starting with `/` starts with `/`, so it is no inherited property name |
| `Navigation.AsWrittenAgreesOnRoutes` | src/lib/utils.ts:10-48 | for any two paths starting with `/`, the code as written and the corrected lookup give the same result |

## Left out

- Network and streaming plumbing: `fetch`, HTTP headers, JSON serialisation and the reader are modelled only by their outcome (`Response`). `TextDecoder`'s reassembly of multi-byte UTF-8 characters across chunks is not part of this model: chunks arrive already decoded. The decoder is also never flushed at the end of the stream, and that is not modelled either.
- Environment lookup through `import.meta.env` becomes two optional string parameters.
- The source reads `Date.now()` twice, once for the user message's id (`src/pages/ChatPage.tsx:43`) and once for the placeholder's (`:52`), and the two readings may differ. The model merges them into the single `now` parameter, which stamps both ids. No property proved here depends on the two stamps being equal.
- `Navigation.InheritedPrimitive`: uses the source-text form `function <name>() { [native code] }`. The exact text of a built-in function is engine-specific. Every form starts with `function ` followed by the name, and no inherited name is a prefix of another, so a comparison between two of them is decided within the name and the modelled direction does not depend on that choice.
- `Chat.ChatSession.Submit`: requires the clock reading to be later than every earlier id's stamp. The source does not check this. Two sends within one millisecond would give the new placeholder an id equal to the previous reply's id, and the replace-by-id update would then rewrite both.
- `Chat.ChatSession.SendMessage`: requires an idle session. Exchanges are treated as sequential. React's asynchronous state updates, stale closures and any interleaving of two handlers are not modelled.
- An infinite response stream is not modelled. `Body` always holds finitely many chunks.
- JavaScript strings are UTF-16 code units, while Dafny's `char` is a Unicode scalar value. Every character `trim` removes is in the Basic Multilingual Plane, so the guard is unaffected.
- UI side effects are not modelled:
  - the 100 ms deferred scroll-to-bottom;
  - input focus after a send;
  - `console.error` logging;
  - all JSX/CSS rendering;
  - `useIsMobile`.
- `cn` (a wrapper over `clsx` and `tailwind-merge`) is not part of this model. Neither is the router and provider wiring in `src/App.tsx`, nor the type declarations in `src/vite-env.d.ts`.

## Findings

| source | as written | input that shows it | evidently intended | confidence | as-written member | corrected member |
|---|---|---|---|---|---|---|
| src/lib/utils.ts:38-47 | `routeOrder` is a plain object literal, so `routeOrder[base]` also finds properties inherited from `Object.prototype`. For those the lookup is not `undefined`, so the `null` check does not fire. `toValue > fromValue` then compares a rank with a non-numeric value (NaN, false, so `'up'`) or, when both are inherited, two strings | `getNavigationDirection('/chat', 'toString')` gives `'up'`; `getNavigationDirection('__proto__', 'toString')` gives `'down'` | `null` for every base that is not one of the nine table keys | not executed; follows from JavaScript property lookup and comparison. It only arises for paths that do not start with `/` (`Navigation.AsWrittenAgreesOnRoutes`) | `Navigation.GetNavigationDirectionAsWritten` (shown by `Navigation.InheritedKeyCounterexample` and `Navigation.InheritedPairCounterexample`) | `Navigation.GetNavigationDirection` (intended property in its `ensures`) |
