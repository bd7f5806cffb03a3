# PageCheck change detection, modelled in Dafny

PageCheck watches a list of web pages for changes. It keeps a JSON
checklist that maps each page's URL to the hex digest of its content. One
pass downloads every tracked page, hashes it, and compares the fresh
digests with the stored ones. When anything changed it calls the notifier
with the changed entries and rewrites the checklist. It returns the number
of changed pages. Two command-line options edit the checklist without
running a pass. `--add URL` tracks a page with the placeholder digest `""`.
`--remove URL` stops tracking a page.

The model has four modules:

- `Pages` (`pages.dfy`): URLs, hex digests (a subset type: non-empty,
  lower-case hexadecimal), the checklist type `PageMap`, and the
  `Result`/`Error` types that stand for the exceptions the program lets
  propagate.
- `DiffEngine` (`diff_engine.dfy`): `Diff`, a reference definition of the
  comparison written as set algebra. Its contract gives the key-by-key rule
  of the program. Lemmas state its properties.
- `Checker` (`checker.dfy`): the classes `JsonFile` (the checklist file),
  `Notifier` (records every call) and `PageCheck`. `PageCheck` has the
  hashing loop `GetHashDict`, the comparison loop `CompareDicts` (proved
  equal to `Diff`) and the pass `CheckUpdateFile`. Two client methods at
  the end show what callers can derive from these contracts.
- `ListEdits` (`list_edits.dfy`): the add/remove edits, as a specification
  function `Edited` and the method `EditFile` that loads, edits and writes.

Abstractions:

- The network is a value of type `Web = Url -> Option<Bytes>`: the page
  each URL serves at that moment, `None` when the request raises. Every
  pass (`CheckUpdateFile`) receives its own `Web`, so two passes of one
  checker can see different pages, as two downloads can.
- The hash function is the checker's field `hasher: Bytes -> HexDigest`,
  fixed at construction as in the program. The model assumes only that a
  digest is a non-empty hex string.
- The JSON file is a `JsonFile` object. Its `saved` field is `None` when the
  file cannot be read or parsed. Its `writes` field counts rewrites.
- The notifier is a `Notifier` object that records each call. Whether
  delivery succeeds is left open: the method may report either outcome.
- An exception that ends an operation becomes an `Err` result, and the
  contracts state that nothing was saved.

Notes on `pagecheck.py` that shape the model:

- Hashing is a plain sequential loop (line 52); there is no worker pool.
- There is no silent mode. The notifier is always called when the
  comparison finds differences.
- `check_update_file` rewrites the file itself, and only when the
  comparison is non-empty (lines 92-97).
  `Checker.PageCheck.NoChangesMeansChecklistCurrent` shows that skipping
  the write loses nothing: when nothing changed, the fresh checklist
  equals the stored one.
- The notifier returns nothing. A failing notifier raises, which ends the
  pass before the write (line 94 before lines 95-97).
- The default hash is SHA-512 (line 23).

## Model

| member | source | states |
|---|---|---|
| `DiffEngine.Diff` | pagecheck.py:57-77 | a URL is reported exactly when it is in one map only or in both with different digests; its digest comes from the first map whenever that map has it, otherwise from the second |
| `DiffEngine.DiffOfSelfIsEmpty` | pagecheck.py:73-75 | comparing a checklist with itself reports nothing |
| `DiffEngine.DiffEmptyIffEqual` | pagecheck.py:63-77 | the comparison is empty if and only if the two checklists are equal |
| `DiffEngine.DiffKeysSymmetric` | pagecheck.py:64-75 | swapping the arguments reports the same URLs; for URLs in both, each direction takes the digest from its first argument |
| `DiffEngine.DiffOfDisjoint` | pagecheck.py:66-72 | checklists with no URL in common: the result is their union, each digest from the map that holds it |
| `DiffEngine.DiffOfSameKeys` | pagecheck.py:90-91 | when both checklists track the same URLs, the result is exactly the URLs whose digest changed, valued with the fresh digest, and has at most as many entries as the checklist |
| `Checker.JsonFile.Load` | pagecheck.py:87-89 | reading the checklist yields the stored map, or fails when the file is unreadable |
| `Checker.JsonFile.Dump` | pagecheck.py:95-97 | writing replaces the stored map and counts one write |
| `Checker.Notifier.Notify` | pagecheck.py:94 | the call is recorded with exactly the changes it was given |
| `Checker.PageCheck.constructor` | pagecheck.py:27-34 | the checker keeps the file, notifier and hash function it is given |
| `Checker.PageCheck.GetHash` | pagecheck.py:36-44 | a page's digest fails exactly when its download fails, naming the URL; otherwise it is a non-empty hex digest |
| `Checker.PageCheck.GetHashDict` | pagecheck.py:46-55 | succeeds if and only if every page downloads; then the keys are exactly the given URLs, each mapped to its page's digest (an empty set gives an empty map); a failure names a given URL whose download fails |
| `Checker.PageCheck.CompareDicts` | pagecheck.py:57-77 | the loop over the union of keys computes exactly `Diff` of its two arguments |
| `Checker.PageCheck.ChangesBounded` | pagecheck.py:90-98 | a pass reports only tracked URLs, so the returned count is at most the number of tracked pages |
| `Checker.PageCheck.NoChangesMeansChecklistCurrent` | pagecheck.py:90-97 | a pass finds no change if and only if the fresh digests equal the stored ones, so skipping the write loses nothing |
| `Checker.PageCheck.CheckUpdateFile` | pagecheck.py:79-98 | for the pages served at the time of the pass: unreadable file or failed download: error, no notification, no write; otherwise the notifier is called exactly once, with the changes, if and only if there are changes; the result is the number of changes, or a notifier failure with the file untouched; the file is written once, with the fresh digests, only when there are changes and the notifier succeeded; after every successful pass the file holds the fresh digests |
| `ListEdits.Edited` | pagecheck.py:165-173 | the added URL is present with the placeholder `""` (overwriting any digest), the removed URL is absent, the add applies before the remove, every other entry is unchanged; an empty option changes nothing |
| `ListEdits.EditFile` | pagecheck.py:161-177 | an unreadable file is an error with no write; otherwise the file is written once with the edited checklist |
| `ListEdits.RemoveUntrackedIsNoOp` | pagecheck.py:168-173 | removing a URL that is not tracked leaves the checklist unchanged (the missing key is ignored) |
| `ListEdits.RemoveUndoesAdd` | pagecheck.py:165-173 | adding a new URL and then removing it gives back the original checklist |
| `ListEdits.AddedPageReportedByNextPass` | pagecheck.py:166 | a URL just added with the placeholder is always reported by the next pass, with its fresh digest, since a hex digest is never empty |

## Left out

- Downloading pages with `requests.get` and UTF-8 encoding of the text (lines 41-42): network I/O, replaced by the `Web` value each pass receives.
- Computing the digest with `hashlib` (lines 23 and 44): a foreign library, replaced by the `hasher` parameter; only non-emptiness and hex form are assumed, not the fixed length.
- Reading and writing JSON (lines 87-89, 95-97, 162-164, 174-176): file I/O, replaced by the `JsonFile` object. A file that parses but does not hold a map of strings, and a failing write, are not modelled.
- `SMTPNotify` (lines 101-129): the mail transport. Only the call and its possible failure are modelled.
- Command-line parsing, choice of notifier, and exit messages (lines 133-159, 179-189): program plumbing.
- Verbose printing (lines 31-34 and the `self.print` calls): logging with no effect on results.
- The commented-out usage example at the end of the file (lines 191-194).
- The order in which Python iterates over dictionary keys: the loops pick keys in an unspecified order. The results do not depend on it, except which failing URL a failed pass names.
