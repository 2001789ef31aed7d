# Expense chatbot: keyword classifier, canned replies and budget alerts

This project models the three pieces of decision logic of a small personal-finance
chat service written in Python, and proves what each of them promises.

- **Expense classifier** (`categorize_expense`): the description is lower-cased and
  matched against an ordered table of categories (groceries, dining, transportation,
  entertainment), each with a list of keywords. The first category that has a keyword
  occurring *as a substring* of the description is returned; otherwise `"other"`.
- **Canned chatbot reply** (`get_chatbot_response`): the same first-match substring
  lookup over an ordered table of keywords (hello, help, spending, budget), each
  with a fixed reply, and a fixed apology when no keyword is found.
- **Over-budget alerts** (the list comprehension of `check_budget_from_db`): from the
  per-category spending totals and a fixed limit table (groceries 200, dining 100,
  transportation 50, other 150), one alert per row, in summary order, whose category
  has a limit and whose total is strictly above it, carrying the excess.

Files:

- `wrappers.dfy` — `Option` and `Result`.
- `text.dfy` — ASCII case mapping (`LowerStr`, `UpperStr`) and substring membership
  (`Occurs`, Python's `w in s`) with a reference definition by offsets (`OccursAt`).
- `search.dfy` — `FirstIndex`, the ordered first-match scan both lookups perform
  (a `for` loop over an insertion-ordered dict that returns at the first hit).
- `app.dfy` — module `Categorizer`: the keyword table and `Categorize`.
- `chatbot.dfy` — module `Chatbot`: the reply table and `Respond`.
- `database.dfy` — module `BudgetCheck`: summary rows, alerts and `CheckBudget`.

All three pieces are pure in the source (a read-only search with an early return,
and a single list comprehension), so they are modelled as functions and lemmas.
Python dicts keep insertion order; the tables are therefore ordered sequences.

Two behaviours of the code are modelled explicitly:

- A SQL `SUM` over a group whose amounts are all NULL is NULL, which reaches Python
  as `None`; `None > 200` raises a `TypeError`. `CheckBudget` returns
  `Failure(NullTotal(c))` for the first row whose category `c` has a limit and whose
  total is NULL, since the comprehension evaluates rows in order and the
  `category in budget` test short-circuits before the comparison.
- The limit is only looked up after the membership test, so no lookup of a missing
  key can happen; in the model `Limits[row.category]` is guarded by the same test.

The tests in tests/test_chatbot.py set and read budgets for categories such as
`food` and `shopping` through `/set_budget` and `/get_budget` routes that
src/app.py does not define; the classifier never returns those labels and the
fixed limit table has no entry for them. The model follows src/app.py and
src/database.py.

## Model

| member | source | states |
|---|---|---|
| `Search.FirstIndex` | src/app.py:57-59 | the returned position holds the first table entry that passes the test, every earlier entry fails it, and `None` is returned exactly when no entry passes |
| `Text.OccursIffSomeOffset` | src/app.py:58 | substring membership (`word in text`) holds exactly when the word sits in the text at some offset |
| `Text.LowerStr` | src/app.py:58 | `str.lower` on ASCII: the result has the input's length, holds no upper-case ASCII letter, and differs from the input only where the input has an upper-case ASCII letter, which becomes its lower-case partner |
| `Categorizer.MentionsIffWordAtOffset` | src/app.py:58 | `any(word in text for word in words)` holds exactly when some word of the list sits in the text at some offset |
| `Categorizer.Categorize` | src/app.py:50-60 | the result is one of groceries, dining, transportation, entertainment, other; it is "other" exactly when no keyword of any category occurs in the lower-cased description; otherwise a keyword of the returned category occurs and no keyword of any earlier category does |
| `Categorizer.CategorizeIsFirstMention` | src/app.py:57-59 | conversely, the first category whose keywords occur in the lower-cased description is the one returned |
| `Categorizer.CategorizeIgnoresCase` | src/app.py:58 | under ASCII case mapping, a description, its upper-cased form and its lower-cased form get the same category |
| `Categorizer.FirstListedCategoryWins` | src/app.py:51-59 | "food at restaurant" is groceries, not dining: the first listed category wins |
| `Categorizer.SubstringNotWord` | src/app.py:54-58 | "trip to vegas" is transportation, because "gas" occurs inside "vegas" |
| `Categorizer.RestaurantIsDining` | src/app.py:52-58 | "Italian restaurant" is dining |
| `Chatbot.Respond` | src/chatbot.py:1-15 | the reply is one of the four table replies or the default apology; it is the apology exactly when none of hello, help, spending, budget occurs in the lower-cased input; otherwise the reply belongs to a keyword that occurs and no earlier keyword occurs |
| `Chatbot.RespondIsFirstMention` | src/chatbot.py:10-13 | conversely, the reply of the first keyword occurring in the lower-cased input is the one returned |
| `Chatbot.RespondIgnoresCase` | src/chatbot.py:10-12 | under ASCII case mapping, an input, its upper-cased form and its lower-cased form get the same reply |
| `Chatbot.GreetingIgnoresCase` | src/chatbot.py:3-13 | "HELLO there" and "hello there" both get the greeting |
| `Chatbot.EarliestKeywordWins` | src/chatbot.py:3-13 | an input holding both "hello" and "budget" gets the greeting |
| `Chatbot.UnknownQuestionGetsDefault` | src/chatbot.py:10-15 | "What can you do?" holds no keyword and gets the apology |
| `BudgetCheck.CheckBudget` | src/database.py:41-57 | the check fails exactly when some row has a limit and a NULL total, naming the first such row's category; on success there are at most as many alerts as rows and every alert is for a category with a limit and has a strictly positive excess |
| `BudgetCheck.AlertsAreExceedingRows` | src/database.py:54-57 | an alert is in the result exactly when some row has a limit and a total strictly above it, and the alert carries that category and total minus limit |
| `BudgetCheck.CheckBudgetAppend` | src/database.py:54-57 | alerts keep summary order: the alerts of a summary split in two are those of the first part followed by those of the second, and an error in the first part wins |
| `BudgetCheck.UnlimitedCategoryIgnored` | src/database.py:43-56 | a row whose category has no limit (such as entertainment) neither alerts nor raises: removing it leaves the result unchanged |
| `BudgetCheck.TotalAtLimitNoAlert` | src/database.py:56 | a total exactly equal to its limit adds no alert |
| `BudgetCheck.WithinLimitsNoAlerts` | src/database.py:54-57 | when every limited category has a total at or below its limit, the alert list is empty |
| `BudgetCheck.OneAlertPerCategory` | src/database.py:49-57 | with one summary row per category, as `GROUP BY` gives, no category is alerted twice |
| `BudgetCheck.SampleSummary` | src/database.py:43-57 | groceries 250, entertainment 999, dining 100, transportation 50.5 give alerts for groceries (50) and transportation (0.5) only |
| `BudgetCheck.NullTotalRaises` | src/database.py:54-56 | a NULL total raises for a limited category (other) but is skipped for an unlimited one (entertainment) |

## Left out

- HTTP routes, JSON request handling and responses (`add_expense`, `get_summary`, the
  Flask app in src/app.py): plumbing around the modelled logic.
- All SQLite access (`init_db`, `get_db_connection`, `add_expense_to_db`,
  `get_summary_from_db`, the `SELECT ... GROUP BY category` query): foreign I/O. The
  summary is an input sequence of rows instead.
- `check_budget` in src/app.py:76-90: it queries a table named `transportation` that is
  never created, returns from inside the loop after the first alert, returns nothing
  when there is no alert, and opens a different database file from `add_expense`. The
  database-layer version of the check is the one modelled.
- The rendering of an alert as `"Warning: You exceeded your ... budget by $...!"` with
  two decimals: an alert is modelled as structured data (category, excess).
- Floating point: totals, limits and excesses are exact `real`s; the rounding of
  `SUM` over `REAL` amounts and of the subtraction is not modelled.
- CategorizeIgnoresCase: holds for the ASCII case mapping only. Python's `str.upper`
  also maps `ſ` to `S` and `ı` to `I`, so `categorize_expense("gaſ")` is "other" while
  its upper-cased form "GAS" is transportation: on non-ASCII descriptions the
  classifier is not case-insensitive.
- RespondIgnoresCase: holds for the ASCII case mapping only; by the same mapping
  `get_chatbot_response("spendıng")` is the apology while "SPENDING" gets the spending
  reply.
- Unicode case mapping: `LowerStr` and `UpperStr` change only ASCII letters. Python's
  `str.lower` and `str.upper` also map other letters (and, for example, the Kelvin sign
  to `k`), which could make a non-ASCII description match a keyword; not modelled.
- A `None` description or chat input (which raises in `.lower()`): inputs are strings.
- A NULL category in the summary: `None in budget` is false, so such a row is skipped
  exactly like any category without a limit; categories are modelled as strings.
- src/script.js (browser UI), the root app.py (language-model configuration) and the
  tests, which drive a running server or a database file.
