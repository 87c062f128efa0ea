# Engage rule engine and visitor auto-engagement, in Dafny

This project models the visitor-targeting part of the erxes API's engage feature
(`src/data/resolvers/utils/engage.js`):

- `checkRule`, a small interpreter that picks one field of the visitor's context by the
  rule's `kind` and tests it with one of eight `condition`s against the rule's `value`;
- `checkRules`, which evaluates a message's whole rule list once the visitor's location is
  known;
- `replaceKeys`, which substitutes the five `{{customer.*}}` / `{{user.*}}` placeholders
  into the message text;
- `createConversation` and `createEngageVisitorMessages`, the trigger that runs when a
  visitor's messenger connects. It finds the live auto-engage messages of the brand that
  were not yet sent to this customer. For each one whose rules pass, it writes a
  conversation and its first message. It then pushes the customer's id onto the engage
  message's `customerIds`.

Files and modules:

| file | module | models |
|---|---|---|
| `outcomes.dfy` | `Outcomes` | `Option` (JS `undefined`/`null`) and `Result` (a step that may throw) |
| `js_values.dfy` | `JsValues` | JS values `Str` / `Num` / `Undef`, truthiness, and `<` (lexicographic on strings) |
| `rules.dfy` | `Rules` | `checkRule`, `checkRules` |
| `records.dfy` | `Records` | customers, users, integrations, engage messages, conversations, messages |
| `templates.dfy` | `Templates` | `replaceKeys` |
| `engage.dfy` | `Engage` | `createConversation`, `createEngageVisitorMessages` |

Modelling choices:

- Rule values are `Str(string) | Num(int) | Undef`, so JavaScript strict equality is `==`.
  Truthiness is explicit: `""`, `0` and `undefined` are falsy. JavaScript `<` is
  `JsLess`: lexicographic order on two strings (`LexLess`, a proper prefix is smaller),
  numeric order on two numbers, and false whenever `undefined` is involved.
- The `kind` and `condition` of a rule stay strings, as in the source. `KindOf` and
  `ConditionOf` classify them the way the chains of `===` tests do, and any other
  string is `OtherKind` / `OtherCondition`.
- `checkRule` either returns a boolean or throws. Calling `startsWith`/`endsWith` on a
  field that is not a string is the `Err(TypeError)` case.
- `checkRules` settles to `true`, `false` or `undefined` (`Option<bool>`). It gives
  `undefined` when the location lookup rejected, or when any rule threw. The `forEach`
  keeps going after a failed rule, so a later rule that throws still turns a `false`
  into `undefined`.
- The location lookup, the user lookup and the two inserts are inputs. Each candidate
  message gets its own location result and insert outcome (`CandidateWorld`, chosen by
  message id), because each pipeline makes its own calls. Users are a map from id to user.
- The engage-message store is a sequence of records. The pipelines run concurrently in
  the source, but each one writes only its own message's record. So they are modelled
  as a fold over the store in which record `i` of the result depends only on record `i`
  of the input. `Trigger`'s contract states this.
- The hide flag comes from the integration that `getIntegration` looks up. The
  conversation's `integrationId` comes from the `integration` argument. The destructured
  `integration` is scoped to the first `.then` callback, so the second callback sees the
  argument.
- A candidate whose sender is missing (`Users.findOne` resolves to `null`) and whose
  rules pass makes `replaceKeys` throw on `user.fullName`. Nothing is written and the
  customer is not pushed. The other candidates are unaffected.
- `createConversation` swallows insert failures and settles to `undefined`. The
  following `.then` therefore pushes the customer id whether or not the conversation
  and message were written. `MarkedDespiteFailedCreation` states this.
- Customer and user profile fields (`name`, `email`, `fullName`, `position`) are optional.
  `replace` converts its replacement to a string, so an unset field is inserted as the
  text "undefined" (`Shown`).
- `greaterThan` only fails when `field < value`, so it means "at least". `lessThan`
  means "at most". An `undefined` field passes both. Both are modelled as written.

## Model

| member | source | states |
|---|---|---|
| `JsValues.LexLessMatchesSpec` | src/data/resolvers/utils/engage.js:121-128 | The string order the comparisons use is the textbook lexicographic order: a proper prefix is smaller, otherwise the first differing character decides. |
| `JsValues.LexLessIrreflexive` | src/data/resolvers/utils/engage.js:121-128 | No string is below itself. |
| `JsValues.LexLessAsymmetric` | src/data/resolvers/utils/engage.js:121-128 | If a is below b, then b is not below a. |
| `JsValues.LexLessTransitive` | src/data/resolvers/utils/engage.js:121-128 | String order is transitive. |
| `JsValues.LexLessTotal` | src/data/resolvers/utils/engage.js:121-128 | Any two different strings are ordered one way or the other. |
| `JsValues.JsLess` | src/data/resolvers/utils/engage.js:121-128 | JavaScript `<` is false whenever `undefined` is involved. On two strings it is lexicographic order and on two numbers it is numeric order. |
| `JsValues.JsLessTrichotomy` | src/data/resolvers/utils/engage.js:121-128 | On two defined values of the same type, exactly one of below, equal or above holds. |
| `JsValues.JsLessTransitive` | src/data/resolvers/utils/engage.js:121-128 | JavaScript `<` on comparable values is transitive. |
| `Rules.KindOf` | src/data/resolvers/utils/engage.js:70-88 | Each of the five names `browserLanguage`, `currentPageUrl`, `city`, `country`, `numberOfVisits` selects its own kind, and only that name does. Any other string selects no field. |
| `Rules.ConditionOf` | src/data/resolvers/utils/engage.js:90-128 | Each of the eight condition names selects its own condition, and only that name does. Any other string is unrecognised. |
| `Rules.FieldOf` | src/data/resolvers/utils/engage.js:68-88 | `browserLanguage` tests the browser language, `currentPageUrl` the page URL, `city` and `country` the located city and country (each `undefined` when unknown). Only `numberOfVisits` selects a number, and it is the visit count. An unrecognised kind leaves the field `undefined`. |
| `Rules.CheckRule` | src/data/resolvers/utils/engage.js:63-131 | A rule throws exactly when it is a `startsWith`/`endsWith` test on a field that is not a string. An unrecognised condition always passes. |
| `Rules.EveryRule` | src/data/resolvers/utils/engage.js:142-152 | The loop over the rules is `undefined` exactly when some rule throws. Otherwise it is true exactly when every rule passes. |
| `Rules.CheckRules` | src/data/resolvers/utils/engage.js:138-156 | A failed location lookup gives "not passed" (`undefined`). Otherwise the result is `undefined` exactly when some rule throws, and `true` exactly when every rule passes. |
| `Rules.UnknownAndAnyValueAreComplementary` | src/data/resolvers/utils/engage.js:100-108 | `isUnknown` passes exactly on a falsy field and `hasAnyValue` exactly on a truthy one, so exactly one of the two passes. |
| `Rules.IsNotNegatesIs` | src/data/resolvers/utils/engage.js:90-98 | `is` passes exactly when the field strictly equals the value (a number never equals a string). `isNot` passes exactly when `is` fails. |
| `Rules.GreaterThanMeansAtLeast` | src/data/resolvers/utils/engage.js:120-123 | `greaterThan` passes exactly when the field is not below the value. An equal or `undefined` field passes. On same-typed values it means "equal or above". |
| `Rules.LessThanMeansAtMost` | src/data/resolvers/utils/engage.js:125-128 | `lessThan` passes exactly when the field is not above the value. An equal or `undefined` field passes. On same-typed values it means "equal or below". |
| `Rules.UnrecognisedConditionPasses` | src/data/resolvers/utils/engage.js:90-130 | A condition outside the eight passes for every field and value. |
| `Rules.UnrecognisedKindIsUndefined` | src/data/resolvers/utils/engage.js:68-88 | With an unrecognised kind, `isUnknown` passes and `hasAnyValue` fails. `is` passes only for `undefined`, both ordering tests pass, and `startsWith` throws. |
| `Rules.PrefixSuffixConditions` | src/data/resolvers/utils/engage.js:110-118 | On a string field, `startsWith`/`endsWith` pass exactly when the field is the value followed by / preceded by some text. On any other field they throw. |
| `Rules.EmptyRuleList` | src/data/resolvers/utils/engage.js:138-156 | An empty rule list passes once the location is known. It is "not passed" when the lookup failed. |
| `Rules.ThrowingRuleSpoilsList` | src/data/resolvers/utils/engage.js:144-156 | One throwing rule anywhere makes the whole list `undefined`. |
| `Rules.CheckRulesOrderIrrelevant` | src/data/resolvers/utils/engage.js:142-152 | Reordering a rule list does not change its verdict. |
| `Rules.LanguageScenario` | src/data/resolvers/utils/engage.js:63-93 | A `browserLanguage is "en"` rule passes for an English browser. |
| `Rules.VisitCountScenario` | src/data/resolvers/utils/engage.js:86-123 | `numberOfVisits greaterThan 3` passes at 5 and at 3, and fails at 2. |
| `Templates.ReplaceAll` | src/data/resolvers/utils/engage.js:13-19 | A global replace leaves text without the placeholder unchanged. |
| `Templates.ReplaceAllBySelf` | src/data/resolvers/utils/engage.js:13-19 | Replacing a placeholder by itself is the identity. |
| `Templates.ReplaceAllSkips` | src/data/resolvers/utils/engage.js:13-19 | A global replace copies through any prefix inside which no occurrence of the placeholder starts, and continues on the rest. |
| `Templates.ReplaceAllSkipsPlainPrefix` | src/data/resolvers/utils/engage.js:13-19 | Leading text that lacks the placeholder's first character is copied through, and the replace continues on the rest. |
| `Templates.ReplaceAllAtFront` | src/data/resolvers/utils/engage.js:13-19 | A leading occurrence is replaced and the scan resumes after it. |
| `Templates.ReplaceAllExact` | src/data/resolvers/utils/engage.js:13-19 | A text that is exactly the placeholder becomes the value. |
| `Templates.PlaceholdersDoNotOverlap` | src/data/resolvers/utils/engage.js:13-19 | No placeholder occurs inside a placeholder that is replaced after it. |
| `Templates.ReplaceKeys` | src/data/resolvers/utils/engage.js:9-22 | Content with no `{{` is returned unchanged. |
| `Templates.ReplaceKeysPlaceholders` | src/data/resolvers/utils/engage.js:9-22 | In a text of the form prefix, placeholder, suffix, where prefix and suffix contain no `{`, the placeholder becomes the text of its customer or user field ("undefined" for an unset field) and the prefix and suffix are kept. This holds provided the substituted texts contain no `{{`. |
| `Templates.NameBeforeCustomerEmail` | src/data/resolvers/utils/engage.js:13-14 | The name pass comes before the customer email pass. A name that reads `{{customer.email}}` becomes the email, and an email that reads `{{customer.name}}` stays literal. |
| `Templates.CustomerEmailBeforeFullName` | src/data/resolvers/utils/engage.js:14-17 | The customer email pass comes before the full-name pass. An email that reads `{{user.fullName}}` becomes the full name, and a full name that reads `{{customer.email}}` stays literal. |
| `Templates.FullNameBeforePosition` | src/data/resolvers/utils/engage.js:17-18 | The full-name pass comes before the position pass. A full name that reads `{{user.position}}` becomes the position, and a position that reads `{{user.fullName}}` stays literal. |
| `Templates.PositionBeforeUserEmail` | src/data/resolvers/utils/engage.js:18-19 | The position pass comes before the user email pass. A position that reads `{{user.email}}` becomes the user's email, and a user email that reads `{{user.position}}` stays literal. |
| `Templates.UnsetNameShowsUndefined` | src/data/resolvers/utils/engage.js:13 | A visitor without a name sees the text "undefined" in place of `{{customer.name}}`. |
| `Templates.CustomerValueIsRescanned` | src/data/resolvers/utils/engage.js:12-19 | The fixed order matters: a customer name that is `{{user.email}}` ends up as the user's email. |
| `Templates.ReplaceKeysPlainPrefix` | src/data/resolvers/utils/engage.js:9-22 | Leading text without `{` is kept and substitution applies to what follows. |
| `Templates.PassStep` | src/data/resolvers/utils/engage.js:13-19 | Each of the five passes replaces exactly the occurrences of its own placeholder that the template spells out. Literal text, fields already substituted and the placeholders of later passes are kept. |
| `Templates.ReplaceKeysFillsTemplate` | src/data/resolvers/utils/engage.js:9-22 | The result for any template made of literal text and any number of placeholders, in any order, is the independently defined filled-in message: each placeholder becomes its field's text and the literal text is kept. This assumes the literal text and the field texts contain no `{`. |
| `Templates.TwoPlaceholdersScenario` | src/data/resolvers/utils/engage.js:13-19 | `{{user.fullName}}{{customer.name}}` with full name "Bob" and name "Ann" becomes "BobAnn". |
| `Engage.CreateConversation` | src/data/resolvers/utils/engage.js:162-201 | A pair comes back exactly when both inserts succeeded. The message points at the conversation. Both point at the customer and the sender, the conversation at the given integration, and the message at the engage message. Both carry the substituted content. |
| `Engage.RunCandidate` | src/data/resolvers/utils/engage.js:237-272 | The message is marked exactly when it is a candidate, its rules pass and its sender exists, whatever the inserts did. A pair is written exactly when, in addition, both inserts succeeded, and it is the pair `createConversation` makes for this customer, integration, sender and message. |
| `Engage.RunAll` | src/data/resolvers/utils/engage.js:234-278 | Each record changes only through its own pipeline. Every written pair is the `createConversation` pair of a message whose pipeline wrote one, and the id of every such message appears among the written pairs. With unique message ids, every such message has exactly one pair. |
| `Engage.Trigger` | src/data/resolvers/utils/engage.js:208-282 | A missing or hiding integration changes nothing. Otherwise record `i` is marked exactly when its pipeline fires, and every pair is the `createConversation` pair of a pipeline that wrote one. The id of each such pipeline's message appears among the pairs, and with unique message ids each such pipeline has exactly one pair. |
| `Engage.CreatedPairsBelongToVisit` | src/data/resolvers/utils/engage.js:174-195 | Every pair a call wrote is for this customer and the given integration, comes from the sender of a stored message, and carries that message's text with the placeholders substituted. |
| `Engage.CreatedPairsAreFromSender` | src/data/resolvers/utils/engage.js:238-246 | When users are looked up by their own id, both records of every written pair carry the id of the sender that the engage message names. |
| `Engage.HiddenListDoesNothing` | src/data/resolvers/utils/engage.js:218-224 | With `hideConversationList` set, the store is unchanged and nothing is created. |
| `Engage.TriggerOnlyAppendsCustomer` | src/data/resolvers/utils/engage.js:226-267 | With the update modelled as a single `$push`, a record changes only by one push of this customer, and only when the customer was absent. So no record comes to list the customer twice. Whether the source's update can run twice is under "## Left out". |
| `Engage.CandidatesAreIsolated` | src/data/resolvers/utils/engage.js:237-277 | What happens to one message's lookups and inserts does not affect another message's record. |
| `Engage.MarkedDespiteFailedCreation` | src/data/resolvers/utils/engage.js:196-267 | When an insert fails, the message is still marked for the customer and no pair is written for it. |
| `Engage.MarkedIsNoCandidate` | src/data/resolvers/utils/engage.js:226-232 | A record that lists the customer never fires for that customer. |
| `Engage.SecondRunDoesNotRefire` | src/data/resolvers/utils/engage.js:226-267 | In two calls in a row for the same customer, a message marked by the first is left alone by the second. Across both calls each message yields at most one conversation. |
| `Engage.OneOfTwoMessagesMatches` | src/data/resolvers/utils/engage.js:226-277 | With two live messages and only the first matching, exactly one pair is written, for the first, and only the first is marked. |

## Left out

- `getIP` / `getLocationInfo` (lines 27-57): HTTP calls and `NODE_ENV` branching. The location is an input per candidate, either a city/country pair or a failure.
- The `Promise.all` concurrency (line 277): pipelines are a sequential fold. Each writes only its own record, and races between concurrent pushes are out of scope. The order of `created` follows the store order, not completion order.
- Mongo queries and updates: the integration lookup, the engage-message store, the user lookup and the two inserts are inputs. A rejected `EngageMessages.find` is not modelled. The `$push` executes exactly once. The source passes a callback to `EngageMessages.update` and also returns the query into the promise chain, and whether the query library then runs the update twice is not modelled.
- The resolved value of `createEngageVisitorMessages` (an array of update results, or `undefined` when a pipeline rejected) is not modelled. The model returns the updated store and the conversation/message pairs written instead.
- A conversation written before a failed message insert (`MessageFailed`) stays in the database in the source. The model records it neither in `created` nor anywhere else, and keeps no conversation id for it.
- `console.log` error reporting.
- Profile fields stored as `null`: an unset customer or user field is inserted as the text "undefined", as JavaScript converts the replacement value to a string. A field explicitly set to `null` would be inserted as "null"; the model does not distinguish it from an unset field.
- `customer.messengerData` missing: the source then throws while reading `sessionCount`. The model has an optional `sessionCount` with `|| 0`.
- Rules.CheckRule: mixed number/string ordering is excluded by `WellTyped`. `greaterThan`/`lessThan` need a value of the field's type (or `undefined`), and `startsWith`/`endsWith` need a string value. JavaScript would coerce in those cases.
- Rules.CheckRules: requires every rule to be `WellTyped`, for the same reason.
- Engage.Trigger: requires every stored rule to be `WellTyped`, for the same reason.
- JsValues.JsLess: compares strings by Unicode scalar value, which agrees with JavaScript's UTF-16 code-unit order only inside the Basic Multilingual Plane. Numbers are integers, so `NaN` and fractions are not modelled.
- Templates.ReplaceKeysFillsTemplate: requires the literal text and the five field texts to be free of `{`. With a `{` in a field text, later passes can rescan it; the pass-order lemmas show this for field texts that are themselves placeholders. A `{` in literal text next to a placeholder is not characterised.
- Templates.ReplaceAll: matches the exact placeholder spelling only. The source's regular expressions also accept one optional space inside the braces, ignore case, and let the unescaped `.` match any character. `$` patterns in a JavaScript replacement string (`$&`, `$$`, ...) are not interpreted, so values are inserted literally.
- `src/db/models/KnowledgeBase.js`: Mongoose schema declarations only, with no logic to model.
