# Verification of the cra-evidence core

A Dafny model of the part of cra-evidence that other programs have to agree with: the strict JSON profile, the
hash-chained ledger and its signed tip, evidence packs and the layered verifier, the civil calendar behind the
legal deadlines, the SBOM worklist and export graph, the hash functions of the Rust verifier, and the renewable
seal chain. `dafny verify dfyconfig.toml` checks all of it.

How the model is laid out:

- Text and bytes are `seq<int>`: code points where a program has a decoded string, bytes where it has a file. `Utf8`
  connects the two.
- Digests and signatures are function parameters, so nothing is assumed of their strength. What would follow from
  strength is stated as "equal, or here are two texts with one digest, or here is a forged signature". `Digest`
  only fixes the form of an answer, 64 lower-case hexadecimal digits. Separately, `Keccak`, `Sha3` and `Sha256` model
  the hash code itself.
- What the program changes in place is a class or an array here too: the parser and its cursor, the line reader, the
  ledger file and its writer, the Go decoder and buffer, the verifier's findings, the Keccak state, the SHA-256
  words, the seal chain. Each method is tied to a specification function, and the theorems are about that function.
- The clock, the file system, locks and keys are parameters. A file is one of: not there, its directory is not one,
  not regular, unreadable, or its bytes.

What two programs share, and what a method and its specification share, is said a second time apart from the code: the
grammar of RFC 8259 as trees (`JsonSyntax`), printed text (`JsonText`), timestamps (`InstantTexts`), weak keys as points
of small order (`SmallOrder`), records, tips, seals and packs by the literal names of their fields (`LedgerRecords`,
`TipExplained`, `SealContents`, `PackContents`), every verdict, reason and layer of a receipt with its circumstance
(`PackConditions`, `PackPlaces`, `PackExplained`), the calendar by month and Sunday (`SummerTime`), and the two hash
functions by their standards (`Sha3Standard`, `Sha256Standard`).

The theorems compose. The line format rests on the JSON theorems (a record cut short never parses), crash safety on
the line format, the runs of concurrent writers on crash safety, and "a pack that was written verifies later" on the
runs and on the exact meaning of the verifier's `ok`.

## Model

| member | source | states |
|---|---|---|
| JsonParser.Parse | verifiers/rust/src/json.rs:35-230 | The cursor-driven parser, with its loops and depth counter, gives for every text the value or the error of the grammar: literals, integers only, escapes with surrogate pairs, no duplicate keys, nesting of at most 512, nothing after the value |
| JsonPrinter.Escape | verifiers/rust/src/json.rs:259-288 | The push loop writes the quoted form of any scalar string: short escapes, `\u` escapes, surrogate pairs outside the basic plane |
| JsonRoundTrip.RoundTrip | verifiers/rust/src/json.rs:36-288 | Parsing what was printed gives the value back and consumes the whole text, for every profile value within the reader's depth bound, in the canonical and in the indented layout |
| JsonStructure.AcceptedIsProfile | verifiers/rust/src/json.rs:54-230 | Whatever the strict reader accepts is a profile value (integers within ±(2^53-1), scalar strings, distinct keys in order) within the depth bound |
| JsonStructure.PrintAfterParse | verifiers/rust/src/json.rs:232-257 | The canonical form is a fixpoint: printing an accepted value and parsing it again gives the same value and uses the whole text |
| JsonStructure.CanonicalInjective | cra_evidence/canonical.py:110-113 | Distinct values have distinct canonical texts |
| JsonStructure.NoPrefixParses | cra_evidence/ledger.py:187-214 | No non-empty strict prefix of a printed object is itself a JSON text, which is what makes a torn record visible |
| JsonFound.ReadsExactly | verifiers/rust/src/json.rs:36-230 | The strict parser accepts a text with a value exactly if the text is written by the grammar of RFC 8259 (trees of literals, portable integers, strings, arrays and objects, with any white space, any of the escapes, hexadecimal digits of either case, members in any order but distinct), the value is that of the tree, and it is within the depth bound |
| JsonErrors.NumberMeans | verifiers/rust/src/json.rs:209-229 | What the token of a number comes to: which of the five errors, exactly when, or the integer |
| JsonErrors.TokenIs | verifiers/rust/src/json.rs:209-214 | The token of a number is the longest run of its characters |
| JsonErrors.UnitErrors | verifiers/rust/src/json.rs:144-208 | Which error a unit of a string gives, exactly when; an unpaired surrogate is one for the strict reader only |
| JsonText.EscapedIs | verifiers/rust/src/json.rs:259-288 | How each code point is printed, by its characters: the seven short escapes, printable ASCII as it is, the rest as `\uxxxx` in lower case, beyond the first plane as the surrogate pair that stands for it |
| JsonText.QuotedIs | verifiers/rust/src/json.rs:259-288 | A text is printed as its code points are, one after the other, between quotes |
| JsonText.ContainersAre | cra_evidence/canonical.py:110-113 | The text of an array or object that is not empty, in both layouts: brackets around its parts in order, joined by commas, all on one line or each on a line of its own with one space for each level |
| JsonText.DecimalIs | verifiers/rust/src/json.rs:232-257 | An integer is printed in decimal digits that stand for it, without a leading zero |
| Prescan.NestingDepth | verifiers/go/prescan.go:15-42 | The byte loop computes the highest bracket level outside strings (ScansAreExact says that this is the true depth) |
| Prescan.HasLoneSurrogate | verifiers/go/prescan.go:44-84 | The index loop answers whether a string holds a `\u` surrogate that is not half of a pair |
| Prescan.ValueHasLoneSurrogate | cra_evidence/ledger.py:155-168 | The walk over a parsed value with its own stack finds an unpaired surrogate exactly if some string or key has one |
| ReaderAgreement.ScansAreExact | verifiers/go/prescan.go:15-84 | On every text the unbounded reader takes, the linear depth scan equals the depth of the value, and the surrogate scan fires exactly if the value holds an unpaired surrogate |
| ReaderAgreement.ReadersAgree | cra_evidence/canonical.py:86-107 | For every text: the bounded strict parser accepts it exactly if the lenient decoder does, the scanned depth is within 512 and no unpaired surrogate is found, in the text (Go) or in the value (Python); and then with the same value |
| ReaderAgreement.ParseGo | verifiers/go/canonical.go:34-51 | Scan, scan, decode accepts exactly the texts the Rust parser accepts, with the same value |
| ReaderAgreement.ParseLine | cra_evidence/ledger.py:138-152 | Scan, decode, walk accepts exactly the texts the Rust parser accepts, with the same value |
| ReaderAgreement.SurrogateErrorIsFound | verifiers/rust/src/json.rs:144-197 | Whatever else is wrong with a text, where the parser reports an unpaired surrogate the linear scan has found one |
| Utf8.EncodeDecode | verifiers/rust/src/main.rs:319-321 | Decoding inverts encoding (RFC 3629) on every scalar text |
| Utf8.ByteOrderIsCodePointOrder | verifiers/rust/src/json.rs:232-257 | Sorting keys by UTF-8 bytes and by code points is the same order |
| GoCanonical.WriteString | verifiers/go/canonical.go:179-209 | The Go string writer appends the same quoted text as the Rust one |
| GoCanonical.Encode | verifiers/go/canonical.go:130-176 | The Go encoder, which sorts the keys of an object before it writes them, appends exactly the canonical text of the value |
| GoCanonical.OrderIrrelevant | verifiers/go/canonical.go:150-172 | Values that differ only in the order their keys were inserted in, at any level, stand for one value, so they are written as the same bytes |
| GoCanonical.CanonicalPrintable | cra_evidence/canonical.py:110-113 | Canonical text only uses the bytes 0x20 to 0x7e, so a newline can only end a line |
| GoParser.ParseBuilt | verifiers/go/canonical.go:34-119 | The token-driven Go reader accepts exactly the texts every reader accepts, and builds, keys in order of appearance, the same value |
| GoParser.Recanonicalise | verifiers/go/canonical.go:34-127 | Reading a text in Go and encoding the result gives the canonical text of the value every reader accepts |
| Refusal.RefusesExactly | cra_evidence/canonical.py:39-64 | Of the values without floats and with string keys, the guard of every digest passes exactly the profile values whose visited levels stay within 512 |
| PythonValues.GuardExactly | cra_evidence/canonical.py:39-64 | Of everything a caller can hold, floats, any dictionary keys and insertion orders included, the guard passes exactly the values without floats and with string keys whose JSON value is of the profile and stays within 512 visited levels |
| PythonValues.FloatfreeIsPlain | cra_evidence/canonical.py:17-34 | What the float conversion returns has a JSON value and is not changed by converting it again; a value that has one already is returned as it is |
| Refusal.GuardMissesEmptyContainer | cra_evidence/canonical.py:39-64 | A value one level too deep for every reader passes the guard (see Findings) |
| Lines.PythonLine | cra_evidence/ledger.py:277-296 | One bounded `readline`, terminator and bound rule: the first line of the bytes, its end, or a refusal above 64 MiB of content |
| Lines.BoundedLine | verifiers/rust/src/main.rs:71-92 | The buffered reader yields that same line, end or refusal, however the bytes are split into buffers, and leaves exactly the rest |
| Lines.FirstLineMeans | cra_evidence/ledger.py:277-296 | The first line is the bytes up to the first newline or the end, without one carriage return at their end; it is refused exactly if that is more than 64 MiB |
| Lines.BlankMeans | verifiers/rust/src/main.rs:321-321 | A blank line holds nothing but spaces and tabs |
| Chain.CheckEntry | cra_evidence/ledger.py:308-318 | The tests of one entry add one failure each, and none exactly if it carries the next index, the previous hash and the digest of itself |
| Chain.VerifyEntries | cra_evidence/ledger.py:298-322 | The loop answers `chain_ok` exactly if the list is a non-empty chain from the genesis value, and then gives its length and last hash; otherwise the number of entries before the first that is no object and the last self_hash among them |
| Chain.VerifyFile | cra_evidence/verify_pack.py:275-276 | Reading all lines and then verifying the snapshot answers whether the bytes are a verifying ledger |
| Chain.ScanChain | verifiers/rust/src/main.rs:312-337 | The one-pass scan, over any split of the bytes into buffers, gives the same chain verdict and the same entries as reading everything first |
| Chain.ReadJoin | cra_evidence/ledger.py:277-296 | The entries of whole lines followed by more bytes are the entries of both parts, or none if either cannot be read |
| History.TipCommitsToHistory | cra_evidence/ledger.py:183-184 | Two verifying ledgers of any lengths that end in the same self_hash are equal entry by entry, or two places in them are exhibited whose different payloads have one digest |
| LedgerEntries.NewEntryLinks | cra_evidence/ledger.py:240-243 | The record an append builds is a profile value, carries the digest of itself and stands after the tail it was built from |
| LedgerEntries.TornReads | cra_evidence/ledger.py:245-265 | After any prefix of a write the file reads as before, or as with the new record, or not at all; and which of the three for every length |
| Ledger.TailState | cra_evidence/ledger.py:187-214 | The tail loop answers next index, last and first self_hash and the missing newline of the entries read, or refuses exactly where a line cannot be taken or is not a chained entry |
| Ledger.Ledger.Append | cra_evidence/ledger.py:231-265 | Every outcome with the bytes it leaves: refused with the file untouched, exactly if the record cannot be appended or there is no lock; appended with exactly the pending bytes added; failed with the file restored or, where truncation failed too, some prefix of the write left; what is acknowledged or taken back has been synced |
| LedgerRecords.RecordSays | cra_evidence/ledger.py:238-243 | What a record says, by the names of its fields: the caller's data and time, its place, the self_hash of the entry before it (64 zeros before the first) and the digest of the text of these four; its line is exactly the five fields in this order, character by character |
| LedgerRecords.AppendedBytes | cra_evidence/ledger.py:231-265 | After a successful append the file is the bytes found, a newline if they did not end in one, the line of the record and a newline; the record holds the caller's data and time, or the clock's where none is given |
| LedgerRecords.AppendableMeans | cra_evidence/ledger.py:187-252 | What an append that may write takes, exactly: lines that can all be read, each with a self_hash of 64 characters, fewer than 2^53 of them; data of the profile and of at most 511 levels; a time that is text; and a line of at most 64 MiB |
| CrashSafety.AppendKeepsVerdict | cra_evidence/ledger.py:231-265 | An append adds exactly its record, and the ledger verifies afterwards exactly if it verified before or held nothing |
| CrashSafety.TornTail | cra_evidence/ledger.py:187-214 | The next `_tail_state` refuses exactly where a record has begun and not ended; elsewhere the file reads as before the write or as after it |
| CrashSafety.CrashThenAppend | cra_evidence/ledger.py:245-265 | Whatever prefix of a write is in the file, a next append that goes through leaves the old records, at most the interrupted one, and its own; a sound ledger then verifies |
| LedgerRuns.NextKeepsInv | cra_evidence/ledger.py:231-265 | Every step of every process (lock, refuse, begin, write some bytes, commit, undo, abandon, die) keeps the invariant of the shared file |
| LedgerRuns.OneChain | cra_evidence/ledger.py:231-265 | After any interleaving of any number of appenders over a sound file: old records first, every acknowledged record exactly once and at its index, one verifying chain; or a cut write at the end that no process can append after |
| LedgerRuns.AppendIsARun | cra_evidence/ledger.py:231-265 | Every result the contract of `Append` allows under the lock is a run of that machine, with the same bytes and acknowledgement |
| Instants.InstantsAgree | cra_evidence/signing.py:56-71 | Python's and Rust's timestamp tests accept the same texts, for every text |
| InstantTexts.InstantMeans | cra_evidence/signing.py:53-71 | The accepted timestamps, exactly: a date that exists and a time of day in digits, a fraction of one to nine digits if any, and Z or an offset of at most 23:59 |
| WeakKeys.WeakTestsAgree | cra_evidence/signing.py:43-47 | Comparing a key with the field prime (Python) and looking at its bytes (Rust) give the same answer for every 32-byte key |
| SmallOrder.ListedMeans | cra_evidence/signing.py:29-40 | The ten listed keys are exactly those whose y is 0, 1, -1 or one of the two named roots, with either sign |
| SmallOrder.WeakMeans | cra_evidence/signing.py:43-47 | A key is refused, by Python and by Rust, exactly if its y is not below the field prime or is one of those five, which are second coordinates of points of small order: the named roots solve the equation of the points of order 8 |
| Tip.PayloadsAgree | verifiers/rust/src/main.rs:396-401 | The message Rust formats by hand is the canonical one for every field that passes the hexadecimal and instant tests |
| TipCheck.TipCheckersAgree | verifiers/rust/src/main.rs:388-407 | Both tip checkers accept the same tips for the same ledgers, although they test in different orders |
| TipExplained.PyVerdictMeans | cra_evidence/signing.py:128-163 | The verdict of the Python checker on every document, key, host and ledger, by the names of the fields, with the signed text character by character |
| TipExplained.RustVerdictMeans | verifiers/rust/src/main.rs:388-407 | The same of the Rust checker, which looks at the key with the signature and at the ledger's identity before its length |
| TipExplained.TipSays | cra_evidence/signing.py:118-126 | What a written tip says, field by field |
| TipCheck.AuthenticTipVerdict | cra_evidence/signing.py:128-163 | The exact verdict of an authentic tip over any verifying ledger: truncated, extended, another ledger, rewritten, or accepted |
| TipCheck.AuthenticTipPins | cra_evidence/signing.py:128-163 | An authentic tip of a ledger accepts it, and any verifying ledger it accepts is that ledger, or a digest collision is exhibited |
| TipCheck.TipPinsLedger | cra_evidence/signing.py:128-163 | Whatever tip is presented: an accepted verifying ledger is the signed ledger as it was at a length its key has signed, or two entries collide, or a signature the key never made is accepted |
| TipCheck.AppendWritesItsTip | cra_evidence/ledger.py:266-273 | The count and hashes `append` puts into its tip are those of the ledger it has just written |
| PackReceipt.FoldMeaning | cra_evidence/verify_pack.py:53-65 | A folded state is contradicted if any element is, and verified only if there are elements and all hold |
| PackHost.SignaturePasses | cra_evidence/signing.py:218-284 | A signature passes exactly if there is a sidecar that binds the content, whatever order the tests come in and whatever the trust store |
| PackHost.StoreDecidesTrustOnly | cra_evidence/signing.py:218-284 | The trust store changes neither status nor reason, only whether a valid signature is a trusted one |
| PackExplained.SidecarReasons | cra_evidence/signing.py:238-284 | Why a sidecar does not pass: each reason exactly in its circumstance, whatever order the tests come in |
| PackConditions.MessageMeans | cra_evidence/signing.py:194-199 | The signed message, field by field: kind, pack digest, signer, instant, key and algorithm, ed25519 where none is named, and nothing else |
| PackConditions.SidecarFieldsMean | cra_evidence/signing.py:180-191 | The fields a sidecar must have and the form they must have |
| VerifyPack.JudgeSources | cra_evidence/verify_pack.py:132-195 | The two loops over records and documents add exactly the layer and elements of the recorded sources: each hash once, in order, plus the malformed ones |
| VerifyPack.Verify | cra_evidence/verify_pack.py:198-407 | The imperative verifier, which appends layers, elements, refusals and unmet policy stage by stage, returns the receipt that the theorems below are about, for every host and every input |
| PackTheorems.VerdictEquation | cra_evidence/verify_pack.py:394-407 | `ok` exactly if the pack is admitted, no subject is contradicted, no check is left open by an instrument failure or an unreadable file, and no policy item is unmet; a refused pack is never ok |
| PackTheorems.InconclusiveEquation | cra_evidence/verify_pack.py:398-403 | `assessed` is false on an admitted pack only with an instrument failure in it and nothing contradicted |
| PackTheorems.TrustNeverContradicts | cra_evidence/verify_pack.py:359-393 | Two runs that differ only in the trust store contradict the same subjects, and refuse both or neither |
| PackMeaning.OkMeans | cra_evidence/verify_pack.py:198-407 | `ok` exactly if the pack, its ledger, sources, tip and signature meet conditions stated without layers or stages: every one is necessary and together they suffice |
| PackExplained.AuthenticityMeans | cra_evidence/verify_pack.py:359-393 | The label of a receipt: whenever ok, trusted-signed exactly if a sidecar binds the content to the key the store names for its signer, signed exactly if one binds it and there is no store, anchored exactly if there is no sidecar; FAIL exactly if not ok |
| PackExplained.StatesExplained | cra_evidence/verify_pack.py:53-65 | The states of an admitted receipt: the reasons of a subject are exactly the circumstances that hold, stated over the files and keys; it is contradicted exactly if one of them speaks against the pack, verified exactly if there is none |
| PackExplained.AdmissionExplained | cra_evidence/verify_pack.py:198-407 | Anchored, refused with which class, or admitted with exactly which policy items unmet, each by its circumstance |
| PackExplained.LayersExplained | cra_evidence/verify_pack.py:198-407 | The layers of a receipt are exactly those whose circumstance holds, with their status; and it is assessed exactly if one of them is adverse or none is missing |
| PackConditions.FormMeans | cra_evidence/verify_pack.py:198-228 | The form of a pack by its literal names: kind, the closed list of fields, the declared limit |
| PackConditions.SnapshotMeans | cra_evidence/verify_pack.py:240-243 | The verification recorded in a pack is clean exactly if both of its fields are true |
| PackConditions.UnknownMeans | cra_evidence/verify_pack.py:282-285 | An entry is outside the schema exactly if it has a field that is none of the five |
| PackConditions.DataMeans | cra_evidence/verify_pack.py:294-294 | The data of an entry, where it is an object |
| PackConditions.BoundMeans | cra_evidence/verify_pack.py:293-297 | The records are bound exactly if each of a known kind carries the digest of the rest of it |
| PackConditions.RefMeans | cra_evidence/verify_pack.py:132-156 | Which source a record names, and when it is one that should name a source and does not |
| PackExplained.SidecarFound | cra_evidence/signing.py:218-238 | What the file of a sidecar comes to before it is judged: absent, left open, malformed |
| PackConditions.SidecarKeyMeans | cra_evidence/signing.py:180-186 | The closed list of a sidecar's fields |
| PackConditions.FingerprintMeans | cra_evidence/signing.py:267-272 | The fingerprint is the first sixteen digits of the SHA-256 of the key |
| PackPlaces.LedgerPlaceMeans | cra_evidence/verify_pack.py:248-256 | Which ledger is meant: the caller's path, or else the plain name in the evidence pack, in its directory; any other name is malformed |
| PackPlaces.AskedMeans | cra_evidence/verify_pack.py:254-254 | When a ledger is asked for |
| PackPlaces.PlacesMean | cra_evidence/verify_pack.py:132-160 | The paths of the tip and of a source |
| PackPlaces.PresentMeans | cra_evidence/verify_pack.py:75-84 | What counts as present |
| PackPlaces.LedgerMeans | cra_evidence/verify_pack.py:264-281 | What is taken for a ledger, what speaks against it and what is left open |
| PackPlaces.DocumentMeans | cra_evidence/verify_pack.py:201-209 | What is taken for a document: a regular file of at most 64 MiB that is UTF-8 and strict JSON; the rest either speaks against it or is left open |
| PackPlaces.SourceMeans | cra_evidence/verify_pack.py:158-188 | What a recorded source comes to: held, only a digest, left open, or contradicted, by the file beside the ledger |
| PackPlaces.NoPackMeans | cra_evidence/verify_pack.py:206-212 | The receipt where there is no pack to judge |
| PackPlaces.OrderMeans | cra_evidence/verify_pack.py:404-407 | An admitted receipt has one state for each of the five subjects, in their order, and its unmet items in the order of the policy |
| PackConditions.StateMeans | cra_evidence/verify_pack.py:312-313 | The state a pack declares agrees with the ledger exactly if the ledger has that many entries, the last of them has that self_hash, and the anchor, if any, comes after them |
| PackConditions.AnchorsMeans | cra_evidence/verify_pack.py:298-299 | An entry anchors a pack exactly if it is an anchor record that names the pack's digest |
| PackMeaning.ParsedPackHasDigest | cra_evidence/verify_pack.py:229-234 | A pack that parsed can always be canonicalised: the branch for one that cannot is dead |
| Producer.BindIsBound | cra_evidence/locker.py:58-61 | A bound record stays a profile value, the verifier recomputes the digest it carries, and no other field changed |
| Producer.LockerVerify | cra_evidence/locker.py:218-243 | The locker's own check holds exactly if the chain verifies and every record of a known kind is bound, and then counts the entries and the records that a pack declares |
| RecordCounts.CountsExactly | cra_evidence/locker.py:258-263 | The declared counts hold, for every kind, the number of its records, and nothing for a kind that does not occur (`RecordCounts.CountKinds` is the loop) |
| RecordCounts.CountsMean | cra_evidence/locker.py:258-263 | Under each kind the number of places in the ledger whose data names it, and nothing under any other text |
| ProducerPack.PackIsWellFormed | cra_evidence/locker.py:264-271 | The pack a locker builds has the kind, closed field list, declared limit, digest and snapshot the verifier asks for |
| ProducerPack.PackFileReads | cra_evidence/locker.py:271-272 | Reading the indented pack file back gives exactly the pack if it is within the size bound, and a refusal otherwise |
| ProducerRuns.ProducerMeetsVerifier | cra_evidence/locker.py:249-290 | A pack over a verifying ledger, after any interleaving of bound appends of which one is its anchor, verifies unsigned as anchored exactly if four conditions on its size, ledger name, older entries and sources hold |
| Locker.EvidencePack | cra_evidence/locker.py:249-290 | Every outcome with the bytes it leaves: declined with the ledger untouched, exactly if the ledger is empty, broken or unbound, the pack or its file name cannot be encoded, its anchor cannot be appended, or there is no lock; the pack of the snapshot with exactly its anchor appended; or a prefix of that anchor, where its write failed |
| PackContents.WrittenPackSays | cra_evidence/locker.py:245-290 | What a returned pack says, field by field, in terms of the request and the entries found: product, version, time, legal basis, retention, ledger file, count and last self_hash, counts by kind, and the verification with its numbers |
| PackContents.PackDigestSays | cra_evidence/locker.py:271-271 | The digest in a pack is that of the pack without it |
| PackContents.AnchorSays | cra_evidence/locker.py:273-274 | The anchor names the digest of the evidence pack and its file name, and is bound |
| Locker.WrittenPackVerifies | cra_evidence/locker.py:245-290 | A returned pack, after any further run of bound appends, verifies as anchored under exactly the conditions of ProducerMeetsVerifier |
| Calendar.OrdinalOrder | cra_evidence/vuln.py:48-53 | Day numbers keep and reflect the order of Gregorian dates |
| Calendar.DateExists | cra_evidence/applicability.py:105-108 | Every day number is the number of a valid date |
| Calendar.AddMonthsValid | cra_evidence/vuln.py:48-53 | Adding any number of months, negative ones too, gives a valid date in the right month |
| Calendar.AddMonthsMonotone | cra_evidence/vuln.py:48-53 | On dates, adding months keeps the order |
| Calendar.AddMonthsOrder | cra_evidence/vuln.py:48-53 | On instants the order is reversed exactly if both days are of one month, both are at or past the length of the target month, and the earlier day has the later time |
| Calendar.AddMonthsNotMonotoneOnInstants | cra_evidence/vuln.py:48-53 | The reversal happens: 30 January noon and 31 January ten o'clock (see Findings) |
| Calendar.AddYearsMeans | cra_evidence/applicability.py:111-113 | Years later: the same date, or 28 February for a 29 February the year does not have |
| SummerTime.MonthLengths | cra_evidence/vuln.py:48-53 | The lengths of the months, and of February by the rule of the centuries |
| SummerTime.KnownDays | cra_evidence/applicability.py:76-78 | Weekdays of dates that can be looked up, and that the day after a day has the next one |
| SummerTime.Units | cra_evidence/applicability.py:81-102 | Hours and days in microseconds |
| Brussels.LastSundayMeans | cra_evidence/applicability.py:76-78 | The result is a Sunday of the month and no later day of it is |
| Brussels.OffsetByDay | cra_evidence/applicability.py:81-88 | The offset depends only on which day, counted from one in the morning UTC, the instant falls in: the year of the instant never matters around the changes |
| SummerTime.OffsetByDate | cra_evidence/applicability.py:81-88 | Two hours from the last Sunday of March to the day before the last Sunday of October, one hour on every other day, for every year |
| SummerTime.ChangesAtOne | cra_evidence/applicability.py:81-88 | The offset changes at one in the morning UTC of those Sundays, to the microsecond |
| SummerTime.DayStartsAt | cra_evidence/applicability.py:91-102 | A day starts at midnight UTC, or in Brussels at 22:00 UTC of the day before in summer and at 23:00 in winter |
| SummerTime.LocalDateIs | cra_evidence/applicability.py:105-108 | The local date is that of the instant shifted by two hours in summer time and by one hour otherwise |
| Brussels.CandidateFits | cra_evidence/applicability.py:91-102 | One of the two candidate offsets always fits, so the assertion error at the end of `day_start` is unreachable for every date |
| Brussels.DaysAndInstants | cra_evidence/applicability.py:91-108 | Start of day and local date are a Galois pair under both readings: a day has begun at an instant exactly if it is not after the instant's date |
| Brussels.DayBoundaries | cra_evidence/applicability.py:91-108 | Every instant falls in the day of its local date and before the next one |
| Brussels.DateOfStart | cra_evidence/applicability.py:91-108 | A date is the local date of the instant its day starts at |
| Brussels.DayStartOrder | cra_evidence/applicability.py:91-102 | Days start in the order of their dates, and only so |
| Horizons.PeriodMeans | cra_evidence/applicability.py:124-130 | An instant is within a period of years exactly if its local date is not after the clamped anniversary of the event's local date |
| Horizons.PeriodOrder | cra_evidence/applicability.py:124-130 | A period ends strictly after its event, and no earlier for a later event |
| Horizons.IsoOrder | cra_evidence/applicability.py:116-117 | The texts of two instants of the years 1 to 9999 compare as the instants do, to the second |
| Horizons.LatestIsLater | cra_evidence/applicability.py:265-269 | The maximum over texts is the text of the later of the two instants |
| Horizons.HorizonMeans | cra_evidence/applicability.py:265-269 | A horizon is the text of the first instant at which the given end, if any, and the end of the period under both readings have come |
| InstantTexts.IsoReads | cra_evidence/applicability.py:116-117 | The text of an instant is one both timestamp tests accept, in UTC, and its digits read back through the calendar are the instant to the second |
| Horizons.ReadingsDisagree | cra_evidence/applicability.py:137-166 | The two readings of a start date disagree in one window only, the one or two hours of Brussels' offset before midnight UTC |
| Keccak.ThetaIsStandard | verifiers/rust/src/keccak.rs:34-45 | Bit by bit, the theta of FIPS 202 section 3.2.1 |
| Keccak.RhoIsStandard | verifiers/rust/src/keccak.rs:28-30 | The rotation table is the triangular offsets along the walk of section 3.2.2 |
| Keccak.WalkCovers | verifiers/rust/src/keccak.rs:28-30 | The walk of section 3.2.2 reaches every lane but the origin, so RhoIsStandard speaks of all 25 table entries |
| Keccak.PiIsStandard | verifiers/rust/src/keccak.rs:46-51 | Bit by bit, the pi of section 3.2.3 |
| Keccak.PiMapsInvert | verifiers/rust/src/keccak.rs:46-51 | The index map of the loop is a permutation of the 25 lanes, undone by the standard's map from both sides |
| Keccak.ChiIsStandard | verifiers/rust/src/keccak.rs:52-56 | Bit by bit, the chi of section 3.2.4 |
| Keccak.IotaIsStandard | verifiers/rust/src/keccak.rs:57-57 | Bit by bit, the iota of section 3.2.5: only the origin lane changes |
| Keccak.RoundConstantsAreStandard | verifiers/rust/src/keccak.rs:2-27 | All 24 constants are the ones the shift register of section 3.2.5 generates |
| Sha3Standard.RoundConstantBits | verifiers/rust/src/keccak.rs:2-27 | On bits and in the order the rounds use them: bit 2^j - 1 of the lane of round i is bit j + 7 i of the register, and every other bit is clear |
| Sha3Standard.Parameters | verifiers/rust/src/keccak.rs:61-88 | Capacity and digest length of SHA3-256 (section 6.1) |
| Sha3Standard.ShortestPadding | verifiers/rust/src/keccak.rs:62-69 | The padding is the shortest that ends on a block |
| Sha3Standard.SpongeInTurn | verifiers/rust/src/keccak.rs:70-80 | The state starts as zeros and takes one block and one permutation at a time (section 4) |
| Keccak.KeccakF | verifiers/rust/src/keccak.rs:32-59 | The nested loops on the caller's array compute 24 rounds of those step mappings |
| Sha3.PaddingIsStandard | verifiers/rust/src/keccak.rs:62-69 | On bits: the message, 01, then 1, zeros and 1 at the end of a block (FIPS 202 sections 5.1 and 6.1) |
| Sha3.PaddingInjective | verifiers/rust/src/keccak.rs:62-69 | No two messages of any length have the same padding |
| Sha3.LaneRoundTrip | verifiers/rust/src/keccak.rs:72-86 | Reading eight bytes into a lane and writing a lane as eight bytes use the same byte order: one undoes the other |
| Sha3Standard.AbsorbIsStandard | verifiers/rust/src/keccak.rs:70-80 | Absorbing flips, bit by bit, the first 1088 bits of the state by the bits of the block |
| Sha3Standard.SqueezeIsStandard | verifiers/rust/src/keccak.rs:81-87 | The digest is the first 256 bits of the state |
| Sha3.Hex | verifiers/rust/src/keccak.rs:61-88 | Padding loop, absorbing by lanes and squeezing compute the sponge over the padded message, in hexadecimal |
| Sha256.PaddingInjective | verifiers/rust/src/sha256.rs:18-24 | No two messages below 2^61 bytes have the same padding, although the length wraps at 64 bits |
| Sha256Standard.PaddingIsStandard | verifiers/rust/src/sha256.rs:18-24 | Section 5.1.1: the message, a one bit, as few zeros as fill a block but for eight bytes, and the number of bits, highest byte first |
| Sha256Standard.ConstantsAreStandard | verifiers/rust/src/sha256.rs:2-11 | Section 4.2.2: each of the 64 constants is the first 32 bits of the fraction of the cube root of its prime (`Primes.FirstPrimes`) |
| Sha256Standard.InitialIsStandard | verifiers/rust/src/sha256.rs:14-17 | Section 5.3.3: the initial words are the first 32 bits of the fractions of the square roots of the first eight primes |
| Primes.FirstPrimes | verifiers/rust/src/sha256.rs:2-11 | The list of primes holds exactly the prime numbers up to 311, in order |
| Sha256Standard.Sigma0IsStandard | verifiers/rust/src/sha256.rs:54-54 | Section 4.1.2, bit by bit |
| Sha256Standard.Sigma1IsStandard | verifiers/rust/src/sha256.rs:47-47 | Section 4.1.2, bit by bit |
| Sha256Standard.Small0IsStandard | verifiers/rust/src/sha256.rs:37-37 | Section 4.1.2, bit by bit |
| Sha256Standard.Small1IsStandard | verifiers/rust/src/sha256.rs:38-38 | Section 4.1.2, bit by bit |
| Sha256Standard.ChIsStandard | verifiers/rust/src/sha256.rs:48-48 | Section 4.1.2, bit by bit |
| Sha256Standard.MajIsStandard | verifiers/rust/src/sha256.rs:55-55 | Section 4.1.2, bit by bit |
| Sha256Standard.ScheduleIsStandard | verifiers/rust/src/sha256.rs:27-43 | Section 6.2.2, step 1, with sums modulo 2^32 of the four words |
| Sha256Standard.CompressIsStandard | verifiers/rust/src/sha256.rs:44-73 | Section 6.2.2, steps 2 to 4: 64 turns of the eight variables and the sums with the words before |
| Sha256Standard.StepIsStandard | verifiers/rust/src/sha256.rs:46-65 | One turn of the eight variables, with sums modulo 2^32 |
| Sha256Standard.BlocksInTurn | verifiers/rust/src/sha256.rs:26-74 | The hash is the initial value, compressed with each block in turn |
| Sha256Standard.HashTextIs | verifiers/rust/src/sha256.rs:75-75 | The words of the hash in order, eight digits each, which read back as them |
| Sha256Standard.WordReads | verifiers/rust/src/sha256.rs:75-75 | A word is printed as eight hexadecimal digits that read back as it |
| Sha256.Hex | verifiers/rust/src/sha256.rs:13-76 | Padding loop, message schedule, compression loop and the final sums compute the hash of FIPS 180-4 section 6.2 over the padded blocks |
| SbomWorklist.ApplicableExactly | cra_evidence/sbom.py:369-378 | Of a distribution's requirements exactly those count that belong to no extra and are not known to be inapplicable |
| SbomWorklist.UnevaluatedExactly | cra_evidence/sbom.py:369-378 | The number of requirements kept because their marker could not be evaluated is that of their places |
| SbomWorklist.Walk | cra_evidence/sbom.py:344-384 | The worklist ends on every environment, cycles included; its components are exactly the keys reachable from the top level, its edges exactly the applicable requirements of every key that was read, each once, none to itself and breadth first; and it counts the markers it could not evaluate |
| SbomExport.FreshRef | cra_evidence/sbom.py:97-105 | The renaming loop ends and gives the first candidate not in use |
| SbomExport.References | cra_evidence/sbom.py:97-105 | Every component gets the first candidate no component before it has; all are distinct |
| SbomExport.PrimaryRef | cra_evidence/sbom.py:106-108 | The product's reference is the first suffixed form not in use; the loop ends |
| SbomExport.ReferencesMean | cra_evidence/sbom.py:97-136 | The texts of references (a locator, or name@version, with #n or #product), and that of components of one name the last is the one edges point to |
| SbomExport.Graph | cra_evidence/sbom.py:132-159 | A list exactly for each reference whose requirements were read and whose recorded children are all exported, holding exactly those children once and in the order they are recorded in, all of them references; the rest is declared unknown |
| SbomExport.ListsAndUnknownPartition | cra_evidence/sbom.py:153-159 | Lists and the unknown composition partition all references, the product's included |
| SbomExport.Export | cra_evidence/sbom.py:97-159 | The whole export: distinct references, the product's included, and a well-formed graph whenever edges are known |
| LongTerm.MessageInjective | cra_evidence/longterm.py:112-118 | Two signed messages are the same text only if they are about the same digest, the same earlier records and the same fields |
| LongTerm.LongTermEvidence.Seal | cra_evidence/longterm.py:120-135 | A seal is refused exactly without a token for a time that is not the prover's own, or with an unknown hash; otherwise the chain grows by exactly its record |
| LongTerm.LongTermEvidence.Verify | cra_evidence/longterm.py:137-198 | The loops that collect reasons answer `ok` exactly if the chain is well shaped, its signatures hold, its times are attested and in order, each record was renewed in time and the outer one is still trusted; the call raises exactly on a well-shaped chain with a list or object for the name of a hash |
| SealContents.SealSays | cra_evidence/longterm.py:120-135 | What a seal says by the names of its fields, the token only with its digest, and whose signature it carries |
| SealContents.MessageIs | cra_evidence/longterm.py:112-118 | The signed text, character by character: the list of the evidence digest, the earlier records and the record without its signature |
| SealContents.ChainMeans | cra_evidence/longterm.py:137-198 | What `verify` asks of a chain, by the names of the fields and without its order of tests |
| SealContents.RaisesMeans | cra_evidence/longterm.py:164-166 | Where a list or an object stands for the name of a hash |
| LongTerm.RunVerifies | cra_evidence/longterm.py:120-198 | Any run of honest seals, attested, at times that never go back, each made while the one before was still trusted, verifies |
| LongTerm.RunIsGenuine | cra_evidence/longterm.py:120-135 | Every seal of a run of honest calls verifies, over a message its key has signed: such chains are the ones AlteredChain is about |
| LongTerm.AlteredSeal | cra_evidence/longterm.py:112-118 | Another chain whose seal at a place verifies, over another digest, other earlier records or other fields: the seal was forged (accepted over a digest its key never signed, in any chain), or its key has signed another text with that digest, or its key has signed that very message, which is none of the first chain |
| LongTerm.AlteredChain | cra_evidence/longterm.py:112-198 | A genuine chain with any signed field of one record altered and every seal still valid. An earlier record than the last: at the next one a seal was forged, texts coincide, or one signature stands for two digests. The last record: forged, coinciding, or its key, the old one or another, has signed that very message elsewhere |
| LongTerm.LastSealExactly | cra_evidence/longterm.py:112-198 | The exception, as an if-and-only-if: the last record of a valid chain can be exchanged for other fields, with every seal valid and nothing forged, exactly if the key they name has signed their message or one with the same digest |
| LongTerm.LastSealCanBeReplaced | cra_evidence/longterm.py:137-192 | Replacing the last seal of a chain that verifies by another honest one, of the same key or another, gives a chain on which `verify` answers ok, exactly unless it was the only seal and the new key is not pinned (see Findings) |
| LongTerm.RenewalDueExactly | cra_evidence/longterm.py:200-208 | With no margin, renewal is due exactly when `verify` calls the outer algorithm or hash broken, except where the only broken name is the empty one |
| LongTerm.RenewalDueBy | cra_evidence/longterm.py:200-208 | With a margin, due exactly if the algorithm or the hash, where its name is not empty, is no longer trusted at that time from now; a longer margin is due no later |
| LongTerm.EmptyNameIsNeverDue | cra_evidence/longterm.py:200-208 | That exception is real (see Findings) |

## Findings

Properties that do not hold of the code, each with an input and the exact condition.

- Adding months to instants is not monotone. `Calendar.AddMonthsNotMonotoneOnInstants` gives 30 January 2026 at 12:00
  and 31 January at 10:00, one month on. `Calendar.AddMonthsOrder` says exactly when: same month, both days at or past
  the length of the target month, and the earlier day with the later time. On dates, and for every period of
  `applicability.py` (which works on dates), the order is kept.
- The guard of `canonical_bytes` is weaker than the depth bound of the readers: it does not count an empty innermost
  container (`Refusal.GuardMissesEmptyContainer`; `Refusal.RefusesExactly` for which values pass). The scan of the
  finished line in `append` closes the gap, so `Ledger.Ledger.Append` still never stores what a reader refuses.
- An altered seal chain can still verify: the last seal can be exchanged for any other genuine one over the same earlier
  records, of another key or of the same key at another time (`LongTerm.LastSealCanBeReplaced`, where `verify` answers
  ok on both chains). `LongTerm.LastSealExactly` gives the condition: the key of the exchanged record has signed its
  message. Any other alteration takes a forged seal, two texts with one digest, or one signature for two digests
  (`LongTerm.AlteredChain`). A pin closes the case of a single seal and no other, because `verify` only pins the first
  record.
- `renewal_due` skips an empty name and `verify` does not: they disagree exactly where the empty name has expired in the
  policy, is the name of the algorithm or the hash, and no other name of the record has expired
  (`LongTerm.RenewalDueExactly`, `LongTerm.EmptyNameIsNeverDue`).
- A pack that the locker writes does not always verify. `ProducerRuns.ProducerMeetsVerifier` gives the four conditions,
  each necessary: the pack file is at most 64 MiB, the ledger's own name is a plain file name (no backslash, say),
  no entry older than the pack has a field outside the closed schema (`Ledger.verify` does not look), and no recorded
  source is malformed, altered or unreadable.

Where code and documentation differ: `_tail_state` only asks for a string of 64 characters as self_hash, so a ledger
that does not verify can be continued; `CrashSafety.AppendKeepsVerdict` therefore says "verifies exactly if it verified
before or held nothing".

## Left out

- Ledger.Ledger.Append: without the tip file that is written after the record (`TipCheck.AppendWritesItsTip` says what is in it), and `write(2)` returning 0 is not modelled; a disk that loses or reorders synced bytes is not either.
- LedgerRuns.OneChain: writers hold the lock; with `allow_unlocked` and no lock, concurrent writers may fork the chain, as the code itself says.
- ProducerRuns.ProducerMeetsVerifier: the run starts at a file with no write under way, and the legal texts, the product fields and the clock are parameters.
- Locker.EvidencePack: the pack file itself (written beside its place before the anchor, renamed after it) is not modelled; all readings of the ledger within the call see the same bytes, later appends come in `Locker.WrittenPackVerifies`.
- Refusal.RefusesExactly: over JSON values only; `PythonValues.GuardExactly` is the same guard on what Python can hold. Values of other types than those of JSON, which `json.dumps` refuses, are in neither.
- VerifyPack.Verify: detail strings, the receipt of an exception inside the verifier, and the error a caller gets for a malformed log key before anything is read.
- PackTheorems.VerdictEquation: about the Python verifier; the layers of `verifiers/rust/src/main.rs`, `verifiers/go/main.go` and the JavaScript verifier outside the ledger scan and the tip are not modelled.
- ReaderAgreement.ParseGo: `encoding/json` and Python's `json` are not modelled themselves; the lenient grammar stands for what both accept, floats refused as the hooks do. The same goes for the token stream under `GoParser.ParseBuilt`.
- JsonParser.Parse: the `Float` variant of the Rust value, which the parser never builds.
- SbomWorklist.Walk: the model looks a distribution up by its normalised name where sbom.py:360 passes the raw one to `importlib.metadata`, which normalises names itself; markers and requirement syntax are parameters, and of a component only whether it is installed is kept.
- SbomExport.Export: only references, lists and the unknown composition; the other CycloneDX fields and `dedup` are not modelled, and the normalised names are a parameter.
- Horizons.IsoOrder: the years 1 to 9999, as Python's dates; elsewhere the calendar has no bounds.
- LongTerm.RunVerifies: times are real numbers read from text by a clock function, so rounding and NaN are not modelled.
- LongTerm.RenewalDueExactly: `renewal_due` raises on a list or object for the name of a hash, which the model reads as a name without an expiry.
- LongTerm.AlteredChain: one record altered, and none added or removed; a chain without its last seals is itself a chain of seals.
- Ed25519, and the strength of the digests: parameters. Every theorem that needs them names the forgery or the collision.
- Python's recursion limits and memory; devices, FIFOs and races on the file system beyond one outcome per path.
- `cli.py`, `outputs.py`, `feeds.py`, `kms.py`, `srp_notice.py`, and the SPDX and CycloneDX ingest of `sbom.py`: parsing, plumbing and field tables whose members would be easy.
- The deadline and overdue tables of `vuln.py`, and the support-period and obligation tables of `applicability.py`: they combine the functions above case by case.
