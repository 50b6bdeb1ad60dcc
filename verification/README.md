# Commercial-register notice parser: the clause extraction engine

This project models, in Dafny, the core of a parser for German commercial-register
(Handelsregister) notices. A notice's text is cut down to its useful part: the text after
the notice's event type, or failing that the text after the first `DD.MM.YYYY` line followed
by a blank line. That part is split into sentences and each sentence into `;`-separated
clauses. Each clause is normalised and run against a table of known phrases (`Sentence`
rules). A rule that fires yields:

- a `Flag` translating a fixed statement about representation powers;
- a named `Label` over the text that follows the phrase (its *postfix*);
- or a person, built by splitting the postfix at commas into lastname, name, city, date of
  birth and an optional flag (`FullPerson` and its subclasses `ManagingDirector`, `Owner`,
  `SingleProcuration`, ...).

Two versions of the engine are modelled side by side:

- **the current version** (`registry_parser.py`): 45 rules including one case-insensitive
  regex (`Prokura geändert(.*):`). The date of birth is found with the regex
  `\*\s?\d{2}\s?\.\s?\d{2}\s?.\s?\d{4}`, and a person whose date cannot be read raises
  `ParsingError`, which the matcher turns into an `Error` event.
- **the older version** (`parser.py`): 22 literal rules. The date chunk is handed straight to
  the date parser, and a date it rejects only leaves the payload empty.

Module layout, following the program's structure:

| module | what it is |
|---|---|
| `Wrappers` | `Option`, `Result` |
| `Text` | Python's `in`, `find`, `split(t, 1)`, `split(c)`, `strip(chars)` over `seq<char>` |
| `Patterns` | the three regular expressions as explicit matchers, proved against declarative readings |
| `Events` | `Flag`, `Label`, person, `Error`; the yielded values; truthiness and `filter(None, ...)`; `to_dict` and its inverse |
| `Rules` | a `Sentence` rule, its sort key, and when it fires |
| `Sorting` | `sorted(..., reverse=True)` as a stable insertion sort |
| `Matcher` | `Sentence.parse` and the walk of a table over a clause, shared by both versions |
| `Segmentation` | sentences to `;`-clauses to normalised clauses |
| `PersonFields` | the comma split, the stripped characters, the flag translation, and persons written field by field |
| `RegistryPerson`, `RegistryReadBack`, `RegistryRules`, `RegistryParser` | the current version |
| `LegacyPerson`, `LegacyRules`, `LegacyParser` | the older version |

Four pieces of external code are parameters:

- the date parser `dateutil.parser.parse(text).date()` is `dp: string -> Option<Date>`, with
  `None` where it raises `ValueError`;
- the NLTK German sentence splitter is `tokenize: string -> seq<string>`;
- the word tokenizer followed by `" ".join(...)` is `normalize: string -> string`;
- in the matcher, constructing a person class from a postfix is a `PersonBuilder`, so that
  both versions' classes can be plugged in.

## Model

| member | source | states |
|---|---|---|
| Text.Find | registry_parser.py:222 | the first occurrence of the separator: it occurs there, nowhere earlier, and there is none exactly when the text does not contain it |
| Text.SplitOnce | registry_parser.py:218 | `s.split(t, 1)` gives a head and a tail that rebuild `s` around `t`, with no occurrence of `t` starting inside the head |
| Text.After | registry_parser.py:222 | the postfix is the suffix right behind the first occurrence of `t`; the text before it, `t` and the postfix give `s` back |
| Text.Split | registry_parser.py:342 | `split(c)` yields one piece more than `s` has separators, no piece contains the separator, and joining the pieces with it gives `s` back |
| Text.SplitJoin | registry_parser.py:81 | splitting a join of separator-free pieces returns exactly those pieces (the inverse direction of `Text.Split`) |
| Text.SplitNoSeparator | registry_parser.py:81 | a text without the separator splits into itself alone |
| Text.StripLeft | registry_parser.py:87 | `lstrip` removes a prefix made only of stripped characters and stops at the first other character |
| Text.StripRight | registry_parser.py:87 | `rstrip` removes a suffix made only of stripped characters and stops at the last other character |
| Text.Strip | registry_parser.py:87-89 | a stripped field neither starts nor ends with a stripped character |
| Text.StripPadded | registry_parser.py:87-89 | a field surrounded by strippable padding strips back to exactly the field |
| Text.StripLeading | registry_parser.py:72 | stripping a text that starts with a run of stripped characters removes exactly that run |
| Text.StripIdempotent | registry_parser.py:75 | stripping again strips nothing more |
| Patterns.MatchFrom | registry_parser.py:12 | the backtracking matcher anchored at a position ends within the text, never before its start |
| Patterns.MatchFromSound | registry_parser.py:12 | what the greedy, backtracking matcher returns is a genuine match of the date-of-birth pattern |
| Patterns.MatchFromComplete | registry_parser.py:12 | whenever some match of the pattern starts at a position, the matcher finds one there |
| Patterns.DerivesLength | registry_parser.py:12 | a match of the pattern from any token on is at least as long as its tokens other than `\s?`, and at most one character per token |
| Patterns.AnyTailLength | registry_parser.py:12 | the tail `.\s?\d{4}` needs at least five characters |
| Patterns.SpaceBeforeFixed | registry_parser.py:12 | a `\s?` in front of a digit or the dot cannot leave a whitespace character to it |
| Patterns.SpaceBeforeAny | registry_parser.py:12 | at the `\s?` before `.`, consuming a whitespace character reaches at least as far as leaving it to `.` |
| Patterns.MatchFromLongest | registry_parser.py:12 | the end the backtracking matcher picks at a start is the longest match starting there |
| Patterns.SearchFrom | registry_parser.py:72 | a reported start lies at or after the starting point and the matcher succeeds there |
| Patterns.SearchFromLeftmost | registry_parser.py:72 | no position between the starting point and the reported start admits a match |
| Patterns.SearchFromCorrect | registry_parser.py:72 | the search from the start of the text finds the leftmost, longest match, and finds nothing only when no match exists |
| Patterns.DobSearch | registry_parser.py:72 | `dob_regex.search`: the leftmost start where the pattern matches, with the longest match there, which is the one the backtracking order prefers; no result exactly when the text holds no date of birth |
| Patterns.DobMatchUnique | registry_parser.py:72 | at most one span of a text is its leftmost, longest date of birth |
| Patterns.StarredDateMatches | registry_parser.py:12 | a star followed by a `DD.MM.YYYY` date is found whole, from its first character |
| Patterns.LineEnd | registry_parser.py:269 | the end of the current line: no newline before it, a newline (or the end of the text) at it |
| Patterns.LastColon | registry_parser.py:269 | the last colon of a range: a colon, with none after it in the range |
| Patterns.ProkuraMatchAt | registry_parser.py:269 | the greedy `(.*):` match anchored at a position is a match, and no longer one exists there; no result means no match starts there |
| Patterns.ProkuraSearchFrom | registry_parser.py:206 | the first start at or after a position where the pattern matches, with no match starting in between |
| Patterns.ProkuraSearch | registry_parser.py:206-208 | `re.search` for `Prokura geändert(.*):` under IGNORECASE: a match, leftmost, greedy, and none exactly when no match exists anywhere |
| Patterns.HeadingFrom | registry_parser.py:13 | the first date heading at or after a position, with no heading in between |
| Patterns.FindHeading | registry_parser.py:360 | the leftmost date heading `re.split(..., 1)` splits at, and none exactly when the text has no heading |
| Events.Kept | registry_parser.py:348 | `filter(None, ...)` keeps exactly the truthy values, never more than it was given |
| Events.KeptAppend | registry_parser.py:348 | filtering distributes over concatenation, so the kept values stay in order |
| Events.KeptSnoc | parser.py:213-215 | appending a yielded value after filtering adds it exactly when it is truthy |
| Events.KeptOfTruthy | registry_parser.py:348 | filtering leaves a list of events unchanged |
| Events.PayloadRoundTrip | registry_parser.py:91-96 | the payload dict loses nothing: each field is read back from its own key |
| Events.DobRead | registry_parser.py:95 | the date of birth is read back from the `dob` key, as a date or as raw text |
| Events.ToDictRoundTrip | registry_parser.py:28-136 | every event is read back from its `to_dict` dictionary |
| Rules.Key | registry_parser.py:333-337 | no contract of its own: the sort key `len(x.text)` for a literal, 1000 for the compiled regex |
| Rules.Occurrence | registry_parser.py:200-210 | a rule goes on with text contained in the clause; a literal rule goes on exactly when its literal occurs, with the literal itself |
| Rules.RegexOccurrence | registry_parser.py:205-210 | for the regex rule the `not in sentence` test never fires: it goes on exactly when the pattern matches, with the matched text |
| Sorting.SortDescending | registry_parser.py:333-337 | no contract of its own: `sorted(..., reverse=True)` as insertion sort; the lemmas below state that it is a stable, non-increasing permutation |
| Sorting.Insert | registry_parser.py:333-337 | no contract of its own: one insertion step, placing an element in front of the first one whose key is not larger; the Insert lemmas state its properties |
| Sorting.InsertPermutes | registry_parser.py:333-337 | inserting adds exactly one element |
| Sorting.InsertKeepsOrder | registry_parser.py:333-337 | inserting into a non-increasing list keeps it non-increasing |
| Sorting.InsertBounded | registry_parser.py:333-337 | inserting below a bound keeps every key below it |
| Sorting.InsertWithKey | registry_parser.py:333-337 | inserting places the new element in front of all elements of its key |
| Sorting.SortedIsPermutation | registry_parser.py:333-337 | `sorted` returns a permutation of its input |
| Sorting.SortedIsNonIncreasing | registry_parser.py:333-337 | with `reverse=True` the keys never increase |
| Sorting.SortIsStable | registry_parser.py:333-337 | elements of equal key keep their original relative order |
| Sorting.SortOfSortedIsIdentity | registry_parser.py:333-337 | sorting a list that is already in order changes nothing |
| Sorting.SortIsIdempotent | registry_parser.py:333-337 | sorting twice is sorting once |
| Sorting.HeadHasLargestKey | registry_parser.py:333-337 | the first rule tried carries the largest key of the input |
| PersonFields.Translate | registry_parser.py:105-107 | no contract of its own: `einzelvertretungsberechtigt` becomes `sole representation` and any other flag is kept; PersonFields.TranslateTrimmed states what the stored flag keeps |
| PersonFields.TranslateTrimmed | registry_parser.py:105-107 | translating a stripped flag keeps it stripped |
| PersonFields.StoredFlag | registry_parser.py:105-107 | the flag stored from the fifth chunk is stripped of `" *;."` even after translation |
| PersonFields.Chunks | registry_parser.py:81 | no contract of its own: `text.split(",")`, whose meaning Text.Split states (pieces without a comma that rejoin into the text) |
| PersonFields.WrittenChunks | registry_parser.py:81 | a person written as comma-separated fields splits back into them, each chunk stripping to its field |
| PersonFields.FirstField | registry_parser.py:87 | a field with no strippable end strips to itself |
| PersonFields.ReadWritten | registry_parser.py:81-89 | a person written from fields has one chunk per field, and each chunk strips to its field |
| RegistryPerson.ParseDob | registry_parser.py:71-77 | a chunk in which the date-of-birth pattern does not occur gives no date (the `ValueError`), whatever the date parser would say |
| RegistryPerson.ParseDobMeaning | registry_parser.py:71-75 | the date read from a chunk is what the date parser makes of the leftmost, longest match in the chunk stripped of `" ;."`, the match itself stripped of `"* ;."` |
| RegistryPerson.PersonPayload | registry_parser.py:79-133 | `ParsingError` is raised exactly when there are three to five chunks and the date of birth cannot be read; other counts leave `{}`; stored fields are stripped |
| RegistryPerson.FourFields | registry_parser.py:86-96 | four chunks store stripped lastname, name and city |
| RegistryPerson.FiveFields | registry_parser.py:100-115 | five chunks store stripped fields and a stripped, translated flag |
| RegistryPerson.ThreeFields | registry_parser.py:119-128 | three chunks store stripped lastname and name |
| RegistryPerson.Build | registry_parser.py:79-133 | constructing a person class raises `ParsingError`, with the message `Cannot parse a <class> from <text>`, exactly when the text has three to five chunks and the date of birth in the last of three or the fourth of four or five cannot be read; otherwise it is the person of that class over that text, with stripped fields and `{}` for any other chunk count |
| RegistryPerson.MissingDobFails | registry_parser.py:72-77 | a date chunk without the pattern fails the person whatever the date parser would say |
| RegistryReadBack.StarredDob | registry_parser.py:71-75 | a date written `*DD.MM.YYYY` after the comma's space reaches the date parser as `DD.MM.YYYY` |
| RegistryReadBack.ReadFour | registry_parser.py:86-96 | four chunks stripping to given fields, with a readable date, give exactly those fields |
| RegistryReadBack.ReadFive | registry_parser.py:100-115 | five chunks stripping to given fields give those fields and the translated flag |
| RegistryReadBack.ReadThree | registry_parser.py:119-128 | three chunks give lastname, name and the date, and no city |
| RegistryReadBack.FourChunkRoundTrip | registry_parser.py:79-99 | a person written `lastname, name, city, *DD.MM.YYYY` reads back field by field, or fails when the date parser rejects the date |
| RegistryReadBack.FiveChunkRoundTrip | registry_parser.py:100-118 | as the four-chunk round trip, with the fifth chunk read back as the translated flag |
| RegistryReadBack.ThreeChunkRoundTrip | registry_parser.py:119-131 | a person written `lastname, name, *DD.MM.YYYY` reads back with no city, or fails on a rejected date |
| LegacyPerson.PersonPayload | parser.py:51-114 | with four or five chunks a rejected date leaves `{}`; other counts than three to five leave `{}`; three chunks always keep the date as raw text; every stored field, the flag and a raw date included, is stripped |
| LegacyPerson.Dated | parser.py:58-97 | four or five chunks store stripped fields once the fourth chunk parses as a date, with a flag only when there is a fifth chunk |
| LegacyPerson.Undated | parser.py:98-107 | three chunks store the last one as the raw date of birth, with no city and no flag, and every field stripped |
| LegacyPerson.Build | parser.py:51-55 | constructing a person class always yields the person over its text |
| LegacyPerson.ThreeChunksIgnoreDates | parser.py:98-112 | with three chunks the payload does not depend on the date parser |
| LegacyPerson.ReadDated | parser.py:58-97 | four or five chunks stripping to given fields give those fields when the date parses, and `{}` when it does not |
| LegacyPerson.FourChunkRoundTrip | parser.py:58-74 | a person written `lastname, name, city, dob` reads back field by field, or leaves `{}` on a rejected date |
| LegacyPerson.FiveChunkRoundTrip | parser.py:75-97 | as the four-chunk round trip, with the translated flag |
| LegacyPerson.ThreeChunkRoundTrip | parser.py:98-107 | a person written `lastname, name, dob` keeps `dob` as text, whatever it says |
| Matcher.ParseLiteral | registry_parser.py:200-211 | a literal rule yields `None` alone when its literal is not in the clause, and otherwise goes on with the literal itself |
| Matcher.ParseRegexSilent | registry_parser.py:205-211 | the regex rule yields `None` alone exactly when `Prokura geändert(.*):` does not match the clause |
| Matcher.ParseRegex | registry_parser.py:205-211 | when the pattern matches, the regex rule goes on with the whole leftmost, greedy match, which occurs in the clause |
| Matcher.Fired | registry_parser.py:213-227 | a firing rule yields, in order, its flag over the text, the two split halves, and the label or person over the postfix, and nothing else |
| Matcher.Scan | registry_parser.py:346-348 | everything a table yields on a clause is truthy |
| Matcher.ScanAppend | registry_parser.py:346-348 | walking two tables in turn is walking their concatenation, earlier rules first |
| Matcher.ScanMembers | registry_parser.py:346-348 | a value is yielded exactly when it is truthy and some firing rule yields it |
| Matcher.FlagReported | registry_parser.py:214-215 | the flag of every firing flag rule is reported over the text it matched |
| Matcher.ScanSilent | registry_parser.py:346-348 | when every rule acts, a clause yields nothing exactly when no rule fires |
| Matcher.ScanAllEvents | registry_parser.py:217-227 | a table of rules that do not split yields only events |
| Matcher.ScanLeads | registry_parser.py:346-348 | a firing person rule at the head of the table yields the first event |
| Matcher.ScanPersonOrigin | registry_parser.py:221-229 | an event that is neither flag nor label is the person a firing rule built over its postfix |
| Matcher.ScanSnoc | parser.py:212-215 | trying one more rule appends its filtered values |
| Matcher.ScanClause | parser.py:212-215 | the loops over the table and the yielded values compute the table's walk over the clause |
| Matcher.AppendTruthy | parser.py:213-215 | appending the truthy values in order is appending their filter |
| Matcher.ProkuraPostfix | registry_parser.py:206-222 | for the regex rule the postfix is everything after the leftmost greedy match |
| Matcher.ProkuraCopy | registry_parser.py:222 | another occurrence of a matched text is itself a match, so `split` cannot find it earlier |
| Segmentation.Pieces | registry_parser.py:340-343 | no clause contains a `;` |
| Segmentation.PiecesAppend | registry_parser.py:341-342 | cutting two runs of sentences is cutting each in turn |
| Segmentation.ClausesAppend | registry_parser.py:341-343 | normalising two runs of sentences is normalising each in turn |
| Segmentation.PiecesOfSentence | registry_parser.py:342 | one sentence gives one clause more than it has semicolons, and they rejoin into it |
| Segmentation.SentenceClauses | registry_parser.py:341-343 | the clauses of one sentence are its `;`-pieces normalised |
| RegistryRules.Declared | registry_parser.py:232-331 | no contract of its own: the 45 rules in declaration order; RegistryRules.DeclaredShape states their shape |
| RegistryRules.DeclaredShape | registry_parser.py:232-331 | the declared list holds 45 rules: the regex rule at position 18, and everywhere else an acting, non-splitting literal rule shorter than the regex key (each group of the list is shown so by its own lemma) |
| RegistryRules.TableIsPermutation | registry_parser.py:333-337 | the sorted table holds exactly the declared rules |
| RegistryRules.TableIsOrdered | registry_parser.py:333-337 | priority keys never increase along the table |
| RegistryRules.TableIsStable | registry_parser.py:333-337 | rules of equal key are tried in declaration order |
| RegistryRules.TableResortIsNoop | registry_parser.py:333-337 | sorting the table again changes nothing |
| RegistryRules.SortedShape | registry_parser.py:333-337 | sorting a list of that shape puts the regex rule first and keeps the others literal |
| RegistryRules.TableRules | registry_parser.py:232-337 | every table rule is the regex rule or a short non-splitting literal rule |
| RegistryRules.RegexRuleFirst | registry_parser.py:268-337 | the regex rule, key 1000, is tried first |
| RegistryRules.TableRulesSplittable | registry_parser.py:232-337 | no table rule asks Python to split on an empty string or splits the clause, and each yields something when it fires |
| LegacyRules.Declared | parser.py:165-190 | no contract of its own: the 22 literal rules in declaration order; LegacyRules.DeclaredShape states their shape |
| LegacyRules.DeclaredShape | parser.py:165-190 | the declared list holds 22 acting, non-splitting literal rules (each group of the list is shown so by its own lemma) |
| LegacyRules.TableIsPermutation | parser.py:192 | the sorted table holds exactly the declared rules |
| LegacyRules.TableIsOrdered | parser.py:192 | literal lengths never increase along the table |
| LegacyRules.TableIsStable | parser.py:192 | rules of equal length are tried in declaration order |
| LegacyRules.TableResortIsNoop | parser.py:192 | sorting the table again changes nothing |
| LegacyRules.SortedLiterals | parser.py:192 | sorting a list of literal rules keeps its length and its rules literal, each keyed by its length |
| LegacyRules.TableRules | parser.py:165-192 | the table holds 22 rules, each a non-splitting literal rule keyed by its length that never asks Python to split on an empty string |
| RegistryParser.Construct | registry_parser.py:213-229 | building a person inside the `try` gives the `Error` named `ParsingError` with the message naming the class and the postfix exactly when the postfix has three to five chunks and its date of birth cannot be read, and otherwise the person of that class over the postfix with stripped fields |
| RegistryParser.ParseClause | registry_parser.py:346-348 | `_parse_normalized` yields only events |
| RegistryParser.ClauseSilent | registry_parser.py:346-348 | a clause yields nothing exactly when no table rule fires on it |
| RegistryParser.RegexRuleLeads | registry_parser.py:268-271 | a matching `Prokura geändert ... :` yields first the `NewProcuration` over the text after the match, or its error |
| RegistryParser.ErrorAttributed | registry_parser.py:228-229 | every `Error` a clause yields is a `ParsingError` of a firing person rule, naming that rule's class and postfix |
| RegistryParser.SelectUseful | registry_parser.py:353-363 | the useful text follows the first event type, else the leftmost date heading, else it is the whole text with an error recorded |
| RegistryParser.EventTypeRoundTrip | registry_parser.py:356-357 | text written as prefix, first event type and rest yields the rest and no error |
| RegistryParser.HeadingRoundTrip | registry_parser.py:359-360 | without the event type, text written as prefix, first heading and rest yields the rest |
| RegistryParser.ParseDocument | registry_parser.py:351-373 | the result mapping holds at most `errors`, present exactly when neither event type nor heading is found; the sentences are those of the useful text |
| LegacyParser.ParseClause | parser.py:212-215 | the older table yields only events, never an `Error` |
| LegacyParser.NoErrors | parser.py:158-164 | non-splitting literal rules whose person classes never raise yield no `Error` |
| LegacyParser.ClauseSilent | parser.py:147-149 | a clause yields nothing exactly when none of the table's literals occurs in it |
| LegacyParser.SelectUseful | parser.py:196-204 | the useful text follows the first event type if present and found, else the leftmost heading, else it is the whole text |
| LegacyParser.Collected | parser.py:207-215 | everything collected over the clauses is truthy |
| LegacyParser.CollectedAppend | parser.py:208-215 | collecting two runs of clauses is collecting each in turn |
| LegacyParser.CollectedMembers | parser.py:208-215 | a value is collected exactly when some clause yields it |
| LegacyParser.CollectedSnoc | parser.py:209-215 | collecting one clause more appends what it yields |
| LegacyParser.SentenceSnoc | parser.py:208-215 | collecting one sentence more appends what its clauses yield |
| LegacyParser.Collect | parser.py:208-215 | the loops over sentences, clauses and rules collect exactly what the clauses yield |
| LegacyParser.CollectSentence | parser.py:209-215 | one sentence's loop collects what its normalised `;`-pieces yield |
| LegacyParser.ParseDocument | parser.py:195-216 | `parse_document` returns the sentences of the useful text and everything their normalised clauses yield, in order |
| LegacyParser.DocumentEvents | parser.py:206-216 | every value returned is an event, never an `Error`, and comes from one normalised clause |

## Left out

- `pipeline.py` and the bundled `natsort` package are outside the extraction engine and are not part of this model.
- I/O and external libraries: the NLTK sentence splitter (and its pickle), `tokenize_words`, and `dateutil`'s date parsing are parameters. Nothing is assumed about them: no day-first reading, no sentence-boundary rules.
- Python `\d` matches every Unicode decimal digit; the model accepts ASCII digits only.
- `re.IGNORECASE` for `Prokura geändert` is modelled by folding ASCII capitals, `Ä` and the Kelvin sign, the only characters Python pairs with the literal's letters.
- The `__str__` methods and the `description` strings are left out; they only format text. In the older version the description calls the date parser again for four or five chunks, and for the first time for three chunks, always after the payload is set; a `ValueError` there is caught and only printed, so the payload is what the model gives.
- The `print` calls of the older version (a rejected date, a text without heading) are left out.
- The current `parse_document` is modelled as written. Its `map(...)` at registry_parser.py:371 is lazy and never consumed, so no clause is parsed and the grouping by `kind` never happens. The model therefore returns only the `errors` entry.
- `RegistryParser.ParseDocument` requires a non-empty event type, and `LegacyParser.ParseDocument` requires one that is non-empty when present. Python raises `TypeError` on `None in text` and `ValueError` on `split("", 1)`; those exceptions are not modelled.
- Exceptions other than `ParsingError` and `ValueError` (for example an `OverflowError` from the date parser) are not modelled.
- The `split=True` option of `Sentence` is modelled in the matcher, but no rule of either table uses it.
- Text.Strip: states only that the result is trimmed. That the result is the middle of the input between two runs of stripped characters is given by Text.StripLeft and Text.StripRight, and the round trip by Text.StripPadded; no single contract of Text.Strip states it.
- Patterns.MatchFrom: its own contract states only that the end lies within the text. That the end is a genuine match, that one is found whenever a match starts there, and that it is the longest one are stated by Patterns.MatchFromSound, Patterns.MatchFromComplete and Patterns.MatchFromLongest.
- Rules.Splittable: a splitting or labelling rule whose literal is empty is outside the model. Python raises `ValueError` on `split("", 1)` there; no rule of either table has an empty literal, as RegistryRules.TableRulesSplittable and LegacyRules.TableRules state.
