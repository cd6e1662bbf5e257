# google-home-module, modelled in Dafny

A model of the small decision logic declared by the `google-home-module`
library (`src/index.d.ts`):

- **`randomGreeting`** (`greeting.dfy`). A visitor who is not signed in gets exactly `"Welcome!"`. A signed-in visitor with no username gets an error, never a greeting. A signed-in visitor with a username gets the randomly chosen phrase. That phrase is a parameter, `randomPhrase`, because the choice depends on randomness and the local clock.
- **`BasicSearch`** (`search.dfy`). A read-only value holding a query and an optional search engine. The engine is Google when it is omitted. `formatQuery` shows a blank username as `"Anonymous"`. `search` hands back the target it was given next to a URL. The format template and the URL template are not given by the library, so they are parameters (`render`, `buildUrl`) of the functions that use them.
- **`User`** (`users.dfy`). A class with the user's fields. `email`, `password`, `admin` and `signedOut` are `const`. `displayName` and the existence flag are `var`. The constructor gives the flags their defaults. `GetEmailDomain` returns the parts of the email around its `@`. `ToggleExistsStatus` is a method with `modifies this`: it sets the flag to the requested value, leaves it alone when it already has that value, and returns the new value.
- **Shared types** (`types.dfy`). The two literal unions: `URLTarget` (`_blank`, `_self`, `_parent`, `_top`) and `otherBool` (`yes`, `no`). Each is a datatype with a parser from its literal strings; the parser gives `None` for any other string. The operations that take the literal as a string (`SearchByName`, `ToggleExistsStatusByName`) turn that `None` into an error value.
- **Splitting** (`strings.dfy`). A JavaScript-style split on one separator character. It comes with the proof that joining the pieces undoes the split and that splitting undoes the join. `GetEmailDomain` is built on it.

The field that the library calls `exists` is named `existsStatus`, because `exists` is a reserved word in Dafny. The declaration marks `exists` `readonly` (src/index.d.ts:128), but the documentation of `toggleExistsStatus` says that method changes it (src/index.d.ts:161-166). The model follows the documentation: the field is a `var`, and only `ToggleExistsStatus` changes it.

An omitted username and an empty one are both "blank". That holds both for the username a signed-in greeting must have and for the `"Anonymous"` default of `formatQuery`.

## Model

| member | source | states |
|---|---|---|
| `Types.URLTarget.Name` | src/index.d.ts:23-26 | each target is written as one of the four literals "_blank", "_self", "_parent", "_top" |
| `Types.ParseTarget` | src/index.d.ts:26 | a string is accepted as a target exactly when it is the name of one; any other string is refused |
| `Types.ParseTargetName` | src/index.d.ts:26 | every target, written out and read back, is itself |
| `Types.OtherBool.Name` | src/index.d.ts:30 | each yes/no value is written as the literal "yes" or "no", and "yes" is the name of Yes alone |
| `Types.OtherBool.ToBool` | src/index.d.ts:27-30 | "yes" stands for true and "no" for false |
| `Types.ParseOtherBool` | src/index.d.ts:30 | only "yes" and "no" are accepted, each read as the word it is |
| `Types.ParseOtherBoolName` | src/index.d.ts:30 | every yes/no value, written out and read back, is itself |
| `Greeting.RandomGreeting` | src/index.d.ts:45-77 | signed out gives exactly "Welcome!"; signed in gives an error exactly when the username is blank, and otherwise the phrase chosen at random |
| `Greeting.SignedOutIgnoresUsername` | src/index.d.ts:51 | signed out, "Welcome!" is returned whatever username and random phrase come with the call (a two-call restatement of the design property) |
| `Greeting.SignedInNeedsUsername` | src/index.d.ts:49 | signed in, a greeting comes back exactly when the username is filled; an omitted or empty one is the missing-username error |
| `Search.BasicSearch.Engine` | src/index.d.ts:86-89 | the engine is the one given, or Google when it was omitted |
| `Search.BasicSearch.FormatQuery` | src/index.d.ts:90-96 | the query is formatted with the username given, or with "Anonymous" when it is blank |
| `Search.BasicSearch.Search` | src/index.d.ts:97-107 | the result carries the target given and a URL built from the engine in use and the query |
| `Search.BasicSearch.SearchByName` | src/index.d.ts:104-107 | a target string is accepted exactly when it is one of the four names and is passed through; any other string is refused with an error naming it |
| `Search.FormatQueryDefault` | src/index.d.ts:93 | formatting with no username or an empty one is the same as formatting for "Anonymous" |
| `Search.SearchEngineDefault` | src/index.d.ts:87 | a search with no engine is the same as a search naming Google |
| `Search.SearchTargetPassthrough` | src/index.d.ts:104-107 | the target always comes back as given, and the URL does not depend on the target |
| `Strings.Split` | src/index.d.ts:154-159 | splitting gives one more piece than there are separators, and no piece holds the separator |
| `Strings.JoinSplit` | src/index.d.ts:154-159 | joining the pieces of a split with the separator gives back the original string |
| `Strings.SplitJoin` | src/index.d.ts:154-159 | splitting the join of separator-free pieces gives back those pieces |
| `Users.User.constructor` | src/index.d.ts:114-131 | every field holds the value given; when omitted, the flags are exists = true, admin = false, signedOut = false |
| `Users.User.GetEmailDomain` | src/index.d.ts:153-159 | with the name asked for, two '@'-free parts that rebuild the email around its '@'; without it, one part: the '@'-free domain that ends the email after its '@' |
| `Users.User.EmailPartsUnique` | src/index.d.ts:153-159 | any split of the email into '@'-free name and domain around an '@' is exactly what `GetEmailDomain` returns, with and without the name |
| `Users.Toggled` | src/index.d.ts:160-166 | after a toggle the flag is the requested value, and it stays the same when it already had that value |
| `Users.ToggledIdempotent` | src/index.d.ts:161 | toggling twice with the same value leaves the same flag as toggling once |
| `Users.ToggledForgetsCurrent` | src/index.d.ts:163-164 | the flag after a toggle depends only on the requested value |
| `Users.User.ToggleExistsStatus` | src/index.d.ts:160-166 | sets the flag to the requested value, unchanged when it already agreed; returns the new value; the display name and the const fields do not change |
| `Users.User.ToggleExistsStatusByName` | src/index.d.ts:160-166 | "yes" and "no" toggle as above and return the new flag; any other string is refused and the flag is left untouched |

## Left out

- `validateEmail`: the pattern it applies is taken from an outside website and is not part of the library's declaration. Only two sample outcomes are given, so there is nothing to model.
- `websiteVersion` and `version`: static strings whose values are not given.
- `Greeting.RandomGreeting`: the signed-in phrase is a parameter, because the choice is random, depends on the local time, and the catalogue is not given. The model says nothing about its text, and in particular does not tie it to the username, although the library says the greeting comes "with their username" (src/index.d.ts:48) and its examples contain it.
- The text of `formatQuery` and the URL of `search`: no template is given. Both are parameters (`render`, `buildUrl`). The model therefore does not state that the URL encodes the query. It states only that the URL is a function of the engine and the query. `search` does no network access.
- The error message text: the library throws a `TypeError` whose wording "may vary". The model returns the error value `MissingUsername`.
- Password encryption and privacy: no scheme is given. `password` is a plain `const` field. Dafny has no private fields, so nothing stops a reader from seeing it, but no operation reads it.
- `Users.User.GetEmailDomain`: requires an email with exactly one '@'. The library does not say what happens with no '@' or with several.
- Concurrency: the library is single-threaded and synchronous, so there is none to model.
