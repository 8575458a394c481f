# Product filters and the numbered journal, in Dafny

This project models the two computational pieces of a set of C++ examples
of object-oriented design principles.

**Open-closed example (`open-closed-principle.cpp`, module `OpenClosed`).**
Products have a name, a colour (red, green, blue) and a size (small, medium,
large). `ProductFilter` offers one hand-written loop per query (`by_color`,
`by_size`, `by_size_and_color`). The extensible alternative is `Filter::by_criteria`,
which takes any `Criteria` and keeps the items whose `is_satisfied` holds. The
two concrete criteria are `ProductColorCriteria` and `ProductSizeCriteria`.

- A product is a class whose fields are `const`. The filters take a vector of
  product pointers and return a vector of the same pointers, and they never
  write through them. So `seq<Product>` is the vector of pointers, and equality
  of its entries is pointer identity. The input is a value, so it cannot be
  changed.
- The criteria hierarchy becomes the closed datatype `Criteria = ColorIs(color) | SizeIs(size)`.
  `IsSatisfied` is the two `is_satisfied` overrides. A new criterion would be a
  new constructor.
- `Selected(items, criteria)` is the specification of filtering. Each of the four
  loops is a method proved equal to it.
- Lemmas about `Selected` state what the filter promises:
  - the result is a subsequence of the input;
  - each product keeps its multiplicity when it matches and is absent otherwise;
  - it is the only longest matching subsequence;
  - filtering is idempotent;
  - two filters commute.

**Single-responsibility example (`single-responsibility-principle.cpp`, module `SingleResponsibility`).**
A `Journal` has a title and a list of entries. `add_entry` stores
`"<n>: <text>"`, where `n` comes from a function-local `static int count`
that starts at 1. That static is shared by every journal in the program. The
model makes it explicit as an `EntryCounter` object that `AddEntry` reads and
advances. `operator<<` writes a `"Title: "` line and then one line per entry.
This becomes the pure function `Rendered` and the loop method `Journal.Write`
proved equal to it. Lemmas state three things about the text:
- adding an entry only appends a line;
- the newline count is entries + 1;
- splitting the text at newlines gives back the title line and the entries.

`std::to_string` of the counter is `Decimal.ToString`. The digit reader
`Decimal.Value` is proved to invert it, so distinct counter values give
distinct entry numbers.

The code has no AND/OR criteria classes. Its only conjunction is
`by_size_and_color`, so the model has no combinators.

## Model

| member | source | states |
|---|---|---|
| `OpenClosed.Product.constructor` | open-closed-principle.cpp:8-13 | a product holds exactly the name, colour and size it was built with |
| `OpenClosed.IsSatisfied` | open-closed-principle.cpp:64-82 | a colour criteria accepts a product exactly when its colour equals the criteria's colour; a size criteria exactly when its size equals the criteria's size |
| `OpenClosed.Selected` | open-closed-principle.cpp:54-61 | the result is no longer than the input; every item in it comes from the input and satisfies the criteria; every matching input item is in it |
| `OpenClosed.SelectedAppend` | open-closed-principle.cpp:57-59 | one more input item adds that item at the end of the result exactly when it satisfies the criteria, and leaves the earlier result alone |
| `OpenClosed.SelectedIsSubsequence` | open-closed-principle.cpp:56-60 | the result is a subsequence of the input, so the relative order is kept |
| `OpenClosed.SelectedCounts` | open-closed-principle.cpp:56-60 | a matching product occurs in the result as often as in the input, and a non-matching one never occurs: no duplication, no omission |
| `OpenClosed.MatchingSubsequenceBound` | open-closed-principle.cpp:56-60 | no subsequence of the input made of matching items is longer than the result |
| `OpenClosed.SelectedIsUnique` | open-closed-principle.cpp:54-61 | any subsequence of the input made of matching items and as long as the result equals the result |
| `OpenClosed.SelectedIdempotent` | open-closed-principle.cpp:54-61 | filtering the result again with the same criteria returns it unchanged |
| `OpenClosed.SelectedCommute` | open-closed-principle.cpp:41 | filtering by one criterion and then another gives the same as the other order |
| `OpenClosed.ByCriteria` | open-closed-principle.cpp:54-61 | the loop returns exactly the specified selection for the given criteria |
| `OpenClosed.ByColor` | open-closed-principle.cpp:19-26 | the loop returns the selection of products whose colour equals the given colour |
| `OpenClosed.BySize` | open-closed-principle.cpp:28-35 | the loop returns the selection of products whose size equals the given size |
| `OpenClosed.BySizeAndColor` | open-closed-principle.cpp:37-44 | the loop returns the by-size selection filtered by colour; a product is in it exactly when it is in the input and both its size and its colour match |
| `OpenClosed.SameAsByColor` | open-closed-principle.cpp:64-72 | `by_criteria` with a colour criteria and `by_color` return the same pointers in the same order |
| `OpenClosed.SameAsBySize` | open-closed-principle.cpp:74-82 | `by_criteria` with a size criteria and `by_size` return the same pointers in the same order |
| `OpenClosed.GreenOfCatalogue` | open-closed-principle.cpp:86-108 | for the seven demonstration products, the green selection is milk, coffee, tea |
| `OpenClosed.GreenProducts` | open-closed-principle.cpp:86-110 | the demonstration yields the names Milk, Coffee, Tea in that order |
| `Decimal.ToString` | single-responsibility-principle.cpp:16 | the entry number is a non-empty run of decimal digits with no leading zero, one digit exactly below 10 |
| `Decimal.ValueOfToString` | single-responsibility-principle.cpp:16 | reading the entry number's digits back gives the counter value |
| `Decimal.ToStringInjective` | single-responsibility-principle.cpp:15-16 | distinct counter values give distinct entry numbers |
| `SingleResponsibility.EntryCounter.constructor` | single-responsibility-principle.cpp:15 | the shared counter starts at 1 |
| `SingleResponsibility.NumberedEntry` | single-responsibility-principle.cpp:16 | an entry is the counter's decimal digits, which read back to the counter, then `": "`, then the given text |
| `SingleResponsibility.Journal.constructor` | single-responsibility-principle.cpp:11 | a new journal has the given title and no entries |
| `SingleResponsibility.Journal.AddEntry` | single-responsibility-principle.cpp:13-17 | exactly one entry, numbered with the counter's old value, is appended; earlier entries and the title are unchanged; the counter grows by exactly 1 |
| `SingleResponsibility.Journal.Write` | single-responsibility-principle.cpp:19-27 | the line-by-line writer produces the title line followed by each entry and a newline, in entry order |
| `SingleResponsibility.Lines` | single-responsibility-principle.cpp:22-25 | the entry lines are empty exactly when there are no entries, and otherwise begin with the first entry followed by a newline |
| `SingleResponsibility.Rendered` | single-responsibility-principle.cpp:21-25 | the written text begins with `"Title: "`, the title and a newline, and is exactly that line when there are no entries |
| `SingleResponsibility.LinesAppend` | single-responsibility-principle.cpp:22-25 | one more entry adds exactly its line at the end of the entry lines |
| `SingleResponsibility.RenderedAppend` | single-responsibility-principle.cpp:21-25 | the text of a journal with one more entry is the old text followed by that entry and a newline |
| `SingleResponsibility.RenderedNewlineCount` | single-responsibility-principle.cpp:21-25 | when the title and entries hold no newline, the text holds exactly entries + 1 newlines |
| `SingleResponsibility.RenderedSplits` | single-responsibility-principle.cpp:21-25 | when the title and entries hold no newline, splitting the text at newlines gives `"Title: " + title` followed by the entries |
| `SingleResponsibility.FirstTwoEntries` | single-responsibility-principle.cpp:41-43 | counter values 1 and 2 with the demonstration texts give `"1: I ate a bug"` and `"2: I cried today"` |
| `SingleResponsibility.DiaryText` | single-responsibility-principle.cpp:19-27 | the demonstration journal renders as `"Title: Dear Diary\n1: I ate a bug\n2: I cried today\n"` |
| `SingleResponsibility.DearDiary` | single-responsibility-principle.cpp:39-44 | a fresh journal with the two demonstration entries writes that text |
| `SingleResponsibility.SharedNumbering` | single-responsibility-principle.cpp:15-16 | a second journal continues the first one's numbering, because the counter is shared |

## Left out

- Generic `Filter<T>`: only the product instantiation is modelled. That is the only one the code uses.
- Virtual dispatch on `Criteria` is replaced by a closed datatype. Criteria types added later would be added as new constructors.
- `PersistenceManager::save` (single-responsibility-principle.cpp:32-36) writes to a file. Only the text it writes (`Rendered`) is modelled.
- All console output (`std::cout` in both `main` functions) is left out. The demonstration data is kept as the methods `GreenProducts` and `DearDiary`; `SharedNumbering` is an added scenario with two journals, which `main` does not have.
- `SingleResponsibility.EntryCounter`: the C++ counter is a single function-local static, so there is exactly one per program. In the model any caller can create another `EntryCounter`, and numbering on it starts again at 1. "One counter per program" is left to the caller; `DearDiary` and `SharedNumbering` create one counter and pass it to every call.
- `OpenClosed.Product`: the C++ struct's fields are mutable, but the model makes them immutable, because no core operation writes them.
- `SingleResponsibility.Journal.AddEntry`: the `int` counter is a natural number, so signed overflow after `INT_MAX` calls is not modelled.
- The commented-out calls in the open-closed `main` (lines 95-105) do not run, so they have no model.
- liskov-substitution-principle.cpp is not part of this model. It is floating-point geometry and console drawing.
- interface-segregation-principle.cpp is not part of this model. It is stub methods that throw or print, plus forwarding.
