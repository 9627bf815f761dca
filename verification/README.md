# Redis data structures on an ordered key/value store

Invar keeps Redis data structures in a transactional, ordered byte store: each
value has a public entry, and compound values keep their elements in further
entries. This project models the parts with the most intricate state and
proves that they behave like the plain values a client thinks of.

The store is a map from byte keys to items (value, type byte, expiry) inside a
class `Tx` whose reads see its own writes (`Store.dfy`). On top of it:

- `Pattern.dfy`, `PatternLaws.dfy`: the pruned glob matcher, against a
  declarative meaning and the table-driven reference matcher, and what patterns
  mean by their text.
- `LinkedList.dfy`, `ListStore.dfy`, `ListRuns.dfy`, `ListWalk.dfy`: the
  in-memory doubly linked list, its entries in the store, the list commands,
  whole runs of them, and moving or deleting a list by walking its chain.
- `Namespace.dfy`, `Elements.dfy`, `Keyspace.dfy`, `KeyspaceRuns.dfy`: the
  namespaces elements live under, and RENAME, RENAMENX, MOVE, DEL and expiry
  refining a plain map from keys to values.
- `TypedKeys.dfy`, `TypedHashes.dfy`, `TypedLists.dfy`, `TypedRuns.dfy`: all of
  these together: runs of list, hash and string commands mixed with RENAME,
  MOVE, DEL and expiry refine one map of sequences, field maps and strings.
- `Scan.dfy`: SCAN's cursor paging and KEYS over the ordered keyspace.
- `JsonText.dfy`, `JsonPath.dfy`, `JsonPathLaws.dfy`: the JSON serializer against
  a reader of RFC 8259, path reads and writes, and what wildcards and recursive
  descents yield.
- `BloomMeta.dfy`, `Bloom.dfy`, `BloomRuns.dfy`: scaling, paged Bloom filters and
  runs of their commands.
- `HllRegisters.dfy`, `HyperLogLog.dfy`: packed six-bit registers and the
  HyperLogLog commands.
- `Bitmap.dfy`: bit strings. `Hash.dfy`: fields, counts and HSCAN.
- `ByteStrings.dfy`, `Bits.dfy`, `BitCast.dfy`: byte strings, numerals, bits.

Stored state that the program updates in place is a class or a method with a
`modifies` clause; ghost parameters carry the abstract state, and each method
is proved against functions on plain values. Random node keys and namespace
identifiers are parameters, required to be unused where the program draws them
at random. Hash functions, the Bloom sizing formulas, the HyperLogLog
estimator, the printer for JSON numbers and integer parsing are function
parameters with the ranges stated beside them. A database number is below
2^31, and counts and lengths that are stored in a fixed width are required to
fit it. A panic counts as an error of its own, and drops the transaction. Sums of
machine words in the Bloom commands, HINCRBY and HSCAN are covered for both
builds: with overflow checks they panic, without they wrap around.

Where the program does not meet what one would expect of it, the code is
modelled as it is, and the exact condition is proved:

- The header comment of `src/redis/list.rs` says removed nodes stay behind as
  orphans; the code deletes them, and `ListRuns.RunEnd` states that.
- RPOPLPUSH pops the source before it looks at the destination's type. Inside
  EXEC a failed command keeps its effects, so the element is lost exactly in
  the case `ListRuns.RotateConserves` names; `ListRuns.RotateLoses` is an
  instance.
- RPOPLPUSH of a list of one element onto itself deletes the list and makes a
  new one, so the expiry is lost, exactly then (`ListRuns.RotateExpiry`).
- SET with KEEPTTL panics on a missing key, exactly when `KeyspaceRuns.SetPanics`
  holds (`KeyspaceRuns.SetString`); `KeyspaceRuns.KeepTtlPanics` is an instance.
- SCAN's cursor is a key name, and on the wire an empty name and the name `0`
  both read as the end. `Scan.YieldIndex` and `Scan.YieldsAll` say exactly which
  names and when all of them come through, and `Scan.ReservedNameCutsOff` gives
  an instance. KEYS leaves out entries that have expired but are still stored,
  SCAN does not (`Scan.ExpiredNameDiffers`); `Scan.ScanIsKeys` says, from the
  names and expiries alone, exactly when both agree.
- A recursive descent followed by a key or an index never succeeds, because the
  leaves of a document never have it (`JsonPath.RecursiveStepFails`). Followed
  by a last wildcard it succeeds exactly on documents without scalars
  (`JsonPath.RecursiveWildcard`).
- A Bloom meta entry with more than 65535 sub-filters loses the newest
  (`BloomMeta.MetaRoundTrip`), so an add is lost exactly as
  `BloomRuns.AddLost` says; `BloomRuns.LosesAdd` is a run from the empty store
  that loses one.
- The Bloom commands do not look at the type of a key and check nothing they
  decode. `Bloom.AddPanics` and `Bloom.QueryPanics` say exactly when BF.ADD and
  BF.EXISTS panic, on every store (`Bloom.AddOne`, `Bloom.ExistsOne`);
  `Bloom.HollowString`, `Bloom.ZeroBitsString` and `Bloom.FieldAsPage` are
  instances. A key that reads as missing is overwritten.
- The comment on `hll_count` says the cache is refreshed whenever it was stale.
  PFCOUNT refreshes a copy and drops it: a stored cache is fresh exactly as long
  as nothing writes the key (`HyperLogLog.Run`), and `HyperLogLog.StaysStale`
  is a key that stays stale through any number of PFCOUNTs.
- HSETNX and HINCRBY look at the type of a key only after writing a missing
  field, so inside EXEC a failed one leaves an entry behind, exactly when
  `Hash.Strays` holds (`Hash.StraysFail`, `Hash.Execute`); `Hash.StrayField` is
  an instance. HINCRBY of an entry that is there does not look at all.
- HSCAN has no page for a cursor whose index is past the matching fields of a
  key: its slice is out of range (`Hash.HScan`, `Hash.PageExists`,
  `Hash.CursorPastTheEnd`).

## Model

| member | source | states |
|---|---|---|
| `Pattern.MatchAt` | src/redis/pattern.rs:113-221 | the recursive matcher with its shared skip flag: at nesting `n` it says exactly whether the tokens match and at most 1000 star groups are followed by another token; when it sets the flag, no way of lengthening an earlier star can match; it makes at most one call per remaining byte |
| `Pattern.ExpandStar` | src/redis/pattern.rs:128-148 | the loop over the suffixes a star may leave: it succeeds exactly when some suffix matches the rest of the pattern, also when it stops early on the flag |
| `Pattern.StarDooms` | src/redis/pattern.rs:144-147 | the pruning argument: when a later star has failed on every suffix, the whole remaining string is beyond rescue by any earlier star |
| `Pattern.MatchClass` | src/redis/pattern.rs:153-200 | reading a bracketed class from the pattern leaves the rest that the tokenised form leaves, and matches exactly when some member of that form does, reversed and unfinished ranges included |
| `Pattern.GlobMatch` | src/redis/pattern.rs:108-111 | a top-level match: for the empty string, the pattern is empty; otherwise the tokens match and the nesting cap of 1000 is respected; at most one call per byte of the string and one more |
| `Pattern.IsMatch` | src/redis/pattern.rs:101-105 | the matcher behind KEYS and SCAN selects exactly the names the pattern flavour selects |
| `Pattern.FlavoursDiffer` | src/redis/pattern.rs:66-83 | the pub/sub and keyspace flavours differ on one pattern and one name only: a lone star and the empty name |
| `Pattern.TokenizeByIndex` | src/redis/pattern.rs:514-564 | the index-based tokeniser of the reference matcher gives the same tokens as the suffix-based one |
| `Pattern.Oracle` | src/redis/pattern.rs:586-612 | the reference matcher's table, filled row by row, decides the declarative meaning of the tokens |
| `Pattern.LastToken` | src/redis/pattern.rs:596-608 | one row of the reference table: how a last token extends the prefixes matched so far |
| `Pattern.MatchersAgree` | src/redis/pattern.rs:614-633 | on every pattern, string and case flag the pruned matcher answers what the reference matcher answers, except that it refuses patterns beyond the nesting cap |
| `Pattern.NestingCapRefuses` | src/redis/pattern.rs:440-448 | a pattern of 1001 separated stars matches by its meaning and is refused by the cap; one of 1000 is selected |
| `PatternLaws.EmptyMeans` | src/redis/pattern.rs:213-221 | the empty pattern stands for the empty string alone |
| `PatternLaws.OrdinaryMeans` | src/redis/pattern.rs:201-211 | a pattern that begins with an ordinary byte matches exactly the strings that begin with it and go on as the rest says |
| `PatternLaws.EscapedMeans` | src/redis/pattern.rs:201-211 | so does any byte behind a backslash; a lone backslash stands for itself |
| `PatternLaws.AnyMeans` | src/redis/pattern.rs:149-152 | a question mark takes any one byte |
| `PatternLaws.StarMeans` | src/redis/pattern.rs:128-148 | a star takes any run of bytes, and a second star adds nothing |
| `PatternLaws.NegatedMeans` | src/redis/pattern.rs:153-200 | of a class and the same class with a caret, whatever its body, exactly one takes the next byte |
| `PatternLaws.CaretNegates` | src/redis/pattern.rs:153-200 | for one-byte names, a class with a caret selects exactly what the class without it does not |
| `PatternLaws.PlainMember` | src/redis/pattern.rs:187-192 | a plain member adds its byte, and no other, to what a class selects |
| `PatternLaws.EscapedMember` | src/redis/pattern.rs:162-169 | an escaped member adds its byte, and no other, in either case mode |
| `PatternLaws.RangeMember` | src/redis/pattern.rs:176-186 | a range adds the bytes between its ends, in whichever order they are given |
| `PatternLaws.ByteSelects` | src/redis/pattern.rs:153-211 | a byte by itself, behind a backslash and alone in brackets selects that byte only |
| `PatternLaws.RangeSelects` | src/redis/pattern.rs:176-186 | a range in brackets selects what lies between the smaller and the larger end |
| `PatternLaws.WildSelects` | src/redis/pattern.rs:128-152 | a question mark selects every one-byte name, a star every name but the empty one |
| `PatternLaws.CaseSelects` | src/redis/pattern.rs:201-211 | without regard to case a byte selects itself and the same letter in the other case |
| `PatternLaws.CaseMember` | src/redis/pattern.rs:187-192 | and so does a plain member of a class |
| `PatternLaws.CaseRange` | src/redis/pattern.rs:176-186 | without regard to case the ends of a range are put in order first and then compared in lower case |
| `LinkedList.Linked.AddFirst` | src/redis/list.rs:178-201 | prepends: the chain stays well formed, the sequence becomes the value followed by the old one |
| `LinkedList.Linked.AddLast` | src/redis/list.rs:203-226 | appends: the chain stays well formed, the sequence becomes the old one followed by the value |
| `LinkedList.Linked.RemoveHead` | src/redis/list.rs:228-246 | takes the first element, nothing from an empty list; the removed node is logged |
| `LinkedList.Linked.RemoveTail` | src/redis/list.rs:248-265 | takes the last element, nothing from an empty list; the removed node is logged |
| `LinkedList.Linked.RemoveMatching` | src/redis/list.rs:269-304 | removes the first `count` matches, all of them for zero, and returns how many; the rest keeps its order |
| `LinkedList.Linked.RemoveMatchingFromTail` | src/redis/list.rs:308-346 | removes the last matches, as many as the negative count says, and returns how many |
| `LinkedList.Linked.TrimTo` | src/redis/list.rs:349-379 | keeps exactly the positions from start to stop and relinks them |
| `LinkedList.Linked.Insert` | src/redis/list.rs:382-430 | puts a value before or after the first element equal to the pivot; without a pivot nothing changes |
| `LinkedList.Linked.OrderedKeys` | src/redis/list.rs:167-176 | following next from the head visits each node once, in list order |
| `LinkedList.RemoveMirror` | src/redis/list.rs:308-346 | removing from the tail is removing from the head of the reversed list |
| `LinkedList.RemoveCounts` | src/redis/list.rs:269-304 | removing the first `n` matches takes exactly that many occurrences out of the multiset and no other element |
| `LinkedList.RemoveFirstExact` | src/redis/list.rs:269-304 | an element is removed exactly when it equals the value and fewer than `n` elements before it do |
| `LinkedList.InsertNearAt` | src/redis/list.rs:382-430 | inserting near a pivot is insertion at the position of its first occurrence, or one after it |
| `ListStore.NodeEntryInjective` | src/redis/list.rs:435-443 | the key of a node entry tells its prefix and its node key, also for prefixes that extend each other |
| `ListStore.NodeRoundTrip` | src/redis/list.rs:556-605 | a stored node reads back with its value and both links |
| `ListStore.SentinelPayloadRoundTrip` | src/redis/list.rs:511-545 | a stored sentinel reads back with its size, head and tail |
| `ListStore.LoadNodes` | src/redis/list.rs:556-605 | the walk along the links ends on every store, cyclic links included; on a stored list it collects exactly the list's nodes |
| `ListStore.LoadList` | src/redis/list.rs:556-605 | loading a stored list gives exactly its chain and values; a missing key and another type are told apart |
| `ListStore.PersistList` | src/redis/list.rs:608-624 | writing back deletes the logged nodes, writes the live ones and the sentinel, and touches no other entry |
| `ListStore.PersistStored` | src/redis/list.rs:608-624 | after writing back, the entries under the prefix are exactly the live nodes, so loading gives the same list |
| `ListStore.Save` | src/redis/list.rs:948-978 | writing a changed list back keeps the whole store consistent; an emptied list leaves neither a sentinel nor a node |
| `ListStore.Push` | src/redis/list.rs:908-940 | LPUSH, RPUSH and their X forms: the list grows at the right end in the right order, every other list and entry stays; a wrong type is refused without a change |
| `ListStore.Pop` | src/redis/list.rs:948-978 | LPOP and RPOP return and remove the end element: the reply and the list that is left make up the old list; the last element takes the list with it |
| `ListStore.LRem` | src/redis/list.rs:1164-1195 | LREM by the sign of the count, with the number removed as the reply |
| `ListStore.LTrim` | src/redis/list.rs:1204-1247 | LTRIM keeps exactly the elements whose positions the indices enclose, a negative index counting from the end; an empty range deletes the list with all its nodes |
| `ByteStrings.ClampExact` | src/redis/list.rs:1220-1236 | a position lies in the clamped range if and only if the indices, with the size added to negative ones, enclose it |
| `ListStore.TrimmedExact` | src/redis/list.rs:1204-1247 | what is kept is the positions the indices enclose, in order |
| `ListStore.TrimWhole` | src/redis/list.rs:1204-1247 | 0 and -1 keep the whole list, -1 and -1 its last element |
| `ListStore.RemainingExact` | src/redis/list.rs:1164-1195 | the sign of the count chooses the end from which matches go, as many as it says; zero takes them all |
| `ListStore.LInsert` | src/redis/list.rs:1257-1283 | LINSERT before or after the first pivot; the new length, or -1 and an unchanged store; a wrong type is refused without a change |
| `ListStore.LSet` | src/redis/list.rs:1116-1155 | LSET replaces one element; an index out of range, a missing key and a wrong type are errors that leave the store unchanged |
| `ListStore.RPopLPush` | src/redis/list.rs:1292-1337 | the last element of the source moves to the head of the destination, which may be the source; a destination of another type fails after the element has left the source |
| `ListStore.FreshIsUnused` | src/redis/common/namespace.rs:135-153 | a namespace no list uses has no node below it |
| `ListRuns.Execute` | src/redis/common/session.rs:601-618 | one list command gives the reply and the lists of the same command on plain sequences; outside EXEC a failed command leaves no trace |
| `ListRuns.Run` | src/redis/list.rs:908-1337 | every run of list commands, from any consistent store, gives reply by reply and list by list, expiry included, what plain sequences give, and the store holds nothing but the lists' own entries and what was there before |
| `ListRuns.RunStart` | src/redis/list.rs:908-940 | a store without lists is where a run may start |
| `ListRuns.RunEnd` | src/redis/list.rs:150-164 | when every list is empty again the store is exactly what it was: no orphan node, no sentinel |
| `ListRuns.RotateConserves` | src/redis/list.rs:1292-1337 | RPOPLPUSH conserves the combined multiset of both lists if and only if it is not the case that an element is taken inside EXEC and the destination holds another type |
| `ListRuns.RotateLoses` | src/redis/list.rs:1292-1337 | one list of one element, rotated inside EXEC onto a key that holds no list: the command fails and the element is gone; outside EXEC it is still there |
| `ListRuns.RotateExpiry` | src/redis/list.rs:1292-1337 | RPOPLPUSH of a list onto itself keeps its expiry if and only if the list has more than one element or no expiry |
| `ListWalk.DeleteNodes` | src/redis/list.rs:482-505 | deleting by walking from the sentinel touches node entries of the prefix only, on every store; on a stored list it removes exactly its nodes |
| `ListWalk.MoveNodes` | src/redis/list.rs:451-476 | re-keying by walking touches node entries of the two prefixes only; on a stored list every node arrives under the new prefix and none stays |
| `ListWalk.MovedList` | src/redis/list.rs:451-476 | with the sentinel rewritten for the new prefix, the moved list is stored there as the same sequence |
| `Namespace.SentinelRoundTrip` | src/redis/common/namespace.rs:190-199 | a sentinel gives back the payload, type and prefix it was written with, with and without a recorded namespace |
| `Namespace.WriteSentinel` | src/redis/common/namespace.rs:206-231 | the rewritten sentinel keeps the key's expiry; dropping a recorded namespace is refused |
| `Namespace.WithDbNamespace` | src/redis/common/namespace.rs:116-130 | changing the database of a namespace changes nothing else of it |
| `Namespace.NamespacesPrefixFree` | src/redis/common/namespace.rs:135-153 | the keys below two different namespaces never meet, whatever follows |
| `Elements.ElementPrefixesCover` | src/redis/keys.rs:752-764 | the element prefixes of a type cover exactly the entries of its family |
| `Elements.ClearPrefix` | src/redis/keys.rs:840-856 | deleting by iteration removes every entry under the prefix and no other |
| `Elements.ClearElements` | src/redis/keys.rs:830-859 | clearing a compound value removes all its elements and touches nothing outside its prefix; types without elements change nothing |
| `Elements.MovePrefix` | src/redis/keys.rs:776-797 | every entry under one prefix is found under the other with its value and type byte, and nothing else changes |
| `Elements.MoveElements` | src/redis/keys.rs:802-816 | all element families, or the nodes of a list, move together to a prefix where there was nothing |
| `Keyspace.PublicInjective` | src/redis/common/session.rs:402-438 | different names or databases have different storage keys |
| `Keyspace.EntryInjective` | src/redis/common/namespace.rs:135-153 | an element key tells its database, identifier and suffix |
| `Keyspace.SpaceTidy` | src/redis/keys.rs:818-829 | under the namespace of a live key there are its elements and nothing else |
| `Keyspace.RenameEntry` | src/redis/keys.rs:472-496 | the value goes whole to the new name, the replaced value and its elements are gone, no other value changes |
| `Keyspace.Rename` | src/redis/keys.rs:503-521 | RENAME on the store is RENAME on a plain map of values; null for a missing key |
| `Keyspace.RenameNx` | src/redis/keys.rs:528-554 | RENAMENX replies 0 for an existing destination, even the source itself, null for a missing source, else renames |
| `Keyspace.Move` | src/redis/keys.rs:414-459 | MOVE carries the value to the other database with type, payload, elements and expiry; 0 without a source or with something in the way, an error within one database |
| `Keyspace.DelOne` | src/redis/keys.rs:730-742 | a deleted key takes all entries of its namespace with it |
| `Keyspace.Del` | src/redis/keys.rs:727-747 | DEL removes exactly the named keys and counts those that existed, each once |
| `Keyspace.Expire` | src/redis/common/namespace.rs:159-163 | an expired sentinel vanishes alone; the keyspace is as if the key were deleted |
| `Keyspace.Relocated` | src/redis/keys.rs:414-496 | a value whose sentinel and elements arrive at a free key is the same value there, and no namespace is shared |
| `KeyspaceRuns.ViewIsValue` | src/redis/keys.rs:749-764 | what a reader finds by scanning under the recorded prefix is the value as written since its key came to life, nothing more and nothing less |
| `KeyspaceRuns.WriteValue` | src/redis/common/namespace.rs:159-174 | creating and extending: a missing key starts from no elements under a fresh namespace, an existing value keeps its own |
| `KeyspaceRuns.PutPlain` | src/redis/strings.rs:391-395 | an entry written over anything at a key is the whole value there; elements of an earlier value are never seen again |
| `KeyspaceRuns.KeepTtlPanics` | src/redis/strings.rs:384-387 | SET with KEEPTTL on an empty keyspace panics |
| `KeyspaceRuns.SetString` | src/redis/strings.rs:356-402 | SET with NX, XX, GET and KEEPTTL is the same command on a plain map: GET refuses another type, a condition that is not met changes nothing, KEEPTTL keeps the expiry; NX writes exactly at a missing key and XX exactly at a present one; it panics if and only if KEEPTTL is given, the key is missing and the condition allows the write |
| `KeyspaceRuns.RenameExact` | src/redis/keys.rs:472-554 | key by key, what RENAME and RENAMENX do and when: the value at the old name is at the new one instead, and every other key is as before |
| `KeyspaceRuns.MoveExact` | src/redis/keys.rs:414-459 | key by key, what MOVE does and when |
| `KeyspaceRuns.DelExact` | src/redis/keys.rs:727-747 | DEL takes exactly the named keys and counts those that were there; expiry takes exactly its key |
| `KeyspaceRuns.Execute` | src/redis/keys.rs:414-859 | one command gives the reply and the values of the same command on a plain map |
| `KeyspaceRuns.Run` | src/redis/keys.rs:414-859 | in every run of writes, SET, RENAME, RENAMENX, MOVE, DEL and expiry from the empty store, the replies and every reader's view are those of a plain map of values, and no two live keys share a namespace |
| `TypedKeys.Arranged` | src/redis/keys.rs:414-859 | RENAME, RENAMENX, MOVE, DEL and expiry do to typed values, whatever they hold, what they do to the values as they are kept, with the same replies |
| `TypedKeys.TextSet` | src/redis/strings.rs:356-402 | SET does to typed values what it does to the values as they are kept, with the same replies |
| `TypedHashes.HashReady` | src/redis/common/namespace.rs:159-187 | what a hash command finds at any key of the keyspace: the fields of a hash, none at a missing key, and where a list or a string is, no entry of a field; the prefix is the recorded one, a fresh one or the name-derived one |
| `TypedHashes.HashWritten` | src/redis/hash.rs:435-470 | the entries a hash command leaves are the value at the key: fields, count, expiry and namespace; every other value is as before |
| `TypedHashes.HashRemoved` | src/redis/hash.rs:578-618 | a hash without fields leaves the keyspace without the key |
| `TypedHashes.ExecuteHash` | src/redis/hash.rs:435-828 | one hash command on the keyspace gives the reply and the map of the same command on plain field maps; it fails on lists and strings without a trace |
| `TypedLists.LayOut` | src/redis/common/namespace.rs:135-153 | the store of a keyspace is its lists, each under a namespace of its own, and other entries that no list owns |
| `TypedLists.PerformImage` | src/redis/list.rs:908-1337 | list commands do the same over keys and over storage keys |
| `TypedLists.NoStray` | src/redis/list.rs:608-624 | after a list command there is nothing but nodes under the namespace of a list, an old one or a new one |
| `TypedLists.ListsHold` | src/redis/list.rs:908-1337 | the lists a command leaves, with their contents, expiries and namespaces, and all other values as before, are a keyspace again |
| `TypedLists.ExecuteLists` | src/redis/list.rs:908-1337 | one list command on the keyspace gives the reply and the map of the same command on plain sequences, whatever other keys hold |
| `TypedRuns.Execute` | src/redis/common/session.rs:601-618 | one command of any kind gives the reply and the contents of the same command on one plain map |
| `TypedRuns.HoldsShows` | src/redis/common/namespace.rs:159-187 | every key shows, to the loader of its type, what the plain map holds |
| `TypedRuns.Run` | src/redis/keys.rs:414-859 | in every run of list commands, hash commands, SET, RENAME, RENAMENX, MOVE, DEL and expiry, in any order on any keys from the empty store, the replies are those of one plain map of sequences, field maps and strings, and at the end every key shows what that map holds, with its expiry |
| `Scan.PrefixConvex` | src/redis/keys.rs:914-918 | the keys with one prefix lie together in byte order, so the first key without it ends the page |
| `Scan.LessExact` | src/redis/keys.rs:876-918 | byte order: a proper prefix is less, and otherwise the first difference decides |
| `Scan.SelectExact` | src/redis/keys.rs:914-948 | a name is selected if and only if some stored key behind the cursor has it and the filter accepts it |
| `Scan.Page` | src/redis/keys.rs:876-948 | one page holds the first matching names after the cursor, at most as many as COUNT, and all of them when it is not full; the next cursor is the last of them exactly when the page is full and some key with the prefix lies behind it, matching or not, and the end otherwise |
| `Scan.NextPage` | src/redis/keys.rs:884-897 | a page started from a returned name takes up exactly behind it |
| `Scan.ScanFrom` | src/redis/keys.rs:235-262 | calling SCAN until it returns 0 yields the matching names in order up to a definite point, in at most matches/COUNT + 1 pages |
| `Scan.YieldIndex` | src/redis/keys.rs:1093-1097 | a matching name is yielded if and only if no page before it closes with a name that is empty or 0 |
| `Scan.YieldsAll` | src/redis/keys.rs:1093-1097 | the iteration yields every matching name if and only if no page that leaves matches behind closes with a name that is empty or 0 |
| `Scan.SelectAscending` | src/redis/keys.rs:876-948 | names come in strictly ascending order, so none is repeated |
| `Scan.Keys` | src/redis/keys.rs:291-316 | KEYS gives the selected names whose entries have no expiry or a later one, and no others, in order |
| `Scan.ScanIsKeys` | src/redis/keys.rs:291-316 | the iteration gives the KEYS reply if and only if, for every matching name, its entry has not expired exactly when no page before it closes with a reserved name |
| `Scan.ScanAgreesWithKeys` | src/redis/keys.rs:876-948 | with no expired entry and no reserved name, SCAN and KEYS agree for every pattern and COUNT |
| `Scan.ReservedNameCutsOff` | src/redis/keys.rs:1093-1097 | with COUNT 1, a key named 0 hides the key 1 from the iteration |
| `Scan.ExpiredNameDiffers` | src/redis/keys.rs:291-316 | a stored entry that has expired is returned by SCAN and left out by KEYS |
| `JsonText.PushJsonString` | src/redis/json.rs:99-120 | the string is written between quotes with the escapes of its characters, in order |
| `JsonText.StringRoundTrip` | src/redis/json.rs:99-120 | an escaped string, read by section 7 of RFC 8259, is the original, and the reader knows where it ends |
| `JsonText.SerializeValue` | src/redis/json.rs:123-159 | the loops over elements and sorted members build the text of the value, from which a reader of RFC 8259 gets the value back |
| `JsonText.ReadsBack` | src/redis/json.rs:123-159 | a reader of whole values by sections 2 to 7 of RFC 8259 gives back every nested value from its text, and what follows it |
| `JsonText.BeforeExact` | src/redis/json.rs:123-159 | the order of members: a proper prefix comes first, and otherwise the first different character decides |
| `JsonText.SerializeEnds` | src/redis/json.rs:123-159 | two texts that agree up to what may follow a value are the text of the same value |
| `JsonText.SerializeInjective` | src/redis/json.rs:123-159 | the serializer is injective on all nested values, for any injective printer that uses number characters only |
| `JsonPath.ResolveFollows` | src/redis/json.rs:316-386 | a path of keys and indices has the one match that following it finds, or fails |
| `JsonPath.RecursiveOk` | src/redis/json.rs:327-349 | a recursive descent succeeds if and only if what follows it succeeds on the document and on everything inside it |
| `JsonPath.RecursiveStepFails` | src/redis/json.rs:327-349 | a recursive descent followed by a key or an index fails on every document |
| `JsonPath.RecursiveWildcard` | src/redis/json.rs:327-362 | a recursive descent followed by a last wildcard succeeds if and only if the document holds no scalar |
| `JsonPath.ResolveInto` | src/redis/json.rs:316-386 | the resolver appends every match to the results so far, in document order, and stops at the first failure: it computes the recursive meaning of the path |
| `JsonPath.ResolveValue` | src/redis/json.rs:390-394 | all the matches, or the first failure |
| `JsonPath.EnsureParent` | src/redis/json.rs:409-444 | the walk down passes exactly the containers the parts name, a missing key counting as an empty object, and ends at the parent or at the container that blocks it |
| `JsonPath.SetThere` | src/redis/json.rs:409-444 | setting along a path is setting in the container the walk leads to and putting everything back around it |
| `JsonPath.DeleteThere` | src/redis/json.rs:409-444 | the same for deleting a key |
| `JsonPath.Assign` | src/redis/json.rs:508-532 | walking down and assigning is the recursive set, objects created before a failure included |
| `JsonPath.Remove` | src/redis/json.rs:588-600 | walking down and removing the member is the recursive deletion of a key |
| `JsonPath.GetFollows` | src/redis/json.rs:480-493 | Get on a plain path returns what following it finds, or fails |
| `JsonPathLaws.WildcardMeans` | src/redis/json.rs:350-364 | a wildcard stands for each step into a container, the indices of an array or the keys of an object, in order, followed by the rest of the path; it fails on a scalar |
| `JsonPathLaws.RecursiveMeans` | src/redis/json.rs:327-349 | a recursive descent stands for the rest of the path here, and then for each step followed by the same descent |
| `JsonPathLaws.WildcardFollows` | src/redis/json.rs:350-384 | result number i of a wildcard followed by steps is what the steps find in child number i; one failure fails the whole |
| `JsonPathLaws.GetItems` | src/redis/json.rs:480-493 | Get of a last wildcard on an array gives its elements as they stand, a single one by itself, an error when there is none |
| `JsonPathLaws.GetValues` | src/redis/json.rs:480-493 | Get of a last wildcard on an object gives its values in key order, a single one by itself, an error when there is none |
| `JsonPathLaws.RecursiveYields` | src/redis/json.rs:327-349 | a last recursive descent yields the document and then everything inside it, parents before children, in order |
| `JsonPathLaws.GetInside` | src/redis/json.rs:480-493 | Get of a last recursive descent gives all of that as an array, and a value without children by itself |
| `JsonPathLaws.NegativeIndex` | src/redis/json.rs:372-384 | behind any plain path to an array, a negative index reads the element so far from the end, and fails beyond the first |
| `JsonPath.SetThenGet` | src/redis/json.rs:497-533 | after a successful set the path reads the value |
| `JsonPath.SetWhatIsThere` | src/redis/json.rs:497-533 | setting what is there changes nothing and succeeds |
| `JsonPath.SetTwice` | src/redis/json.rs:497-533 | a second set at the path overrides the first |
| `JsonPath.SetElsewhere` | src/redis/json.rs:409-444 | a path that leaves at another key or another normalised index reads as before or fails as before, whether or not the set succeeds |
| `JsonPath.DocumentLens` | src/redis/json.rs:480-571 | Get and Set of a document form a lens on all plain paths |
| `JsonPath.DocumentElsewhere` | src/redis/json.rs:480-617 | neither Set nor Delete of a key disturbs a plain path that branches off, and Delete of an array element disturbs none that branches off before the array |
| `JsonPath.DeleteThenGet` | src/redis/json.rs:588-600 | deleting a key succeeds if and only if the path is there, and then it is gone |
| `JsonPath.DeleteElsewhere` | src/redis/json.rs:588-600 | deleting a key leaves every path that branches off as it was |
| `JsonPath.DeleteUndoesSet` | src/redis/json.rs:575-600 | deleting a key that a set has added gives back the document |
| `JsonPath.DeleteIndex` | src/redis/json.rs:601-617 | deleting an index succeeds if and only if the path is there, and takes exactly that element out of the array |
| `JsonPath.DeleteShifts` | src/redis/json.rs:601-617 | after an array element is deleted, every path into the array reads what it read before at that position, or at the next one from the gap on |
| `JsonPath.JsonDocument.Get` | src/redis/json.rs:480-493 | resolves the path and returns the root, the single match, or several matches as an array; on a plain path it returns what following it finds, or an error |
| `JsonPath.JsonDocument.Set` | src/redis/json.rs:497-533 | refuses wildcards before touching the document, else walks down and sets: the result is the recursive set, for which the lens laws hold |
| `JsonPath.JsonDocument.Delete` | src/redis/json.rs:575-622 | clears the root, walks down and removes a member, or rewrites the array without one element: the result is the recursive deletion |
| `JsonPath.JsonDocument.SetArrayResult` | src/redis/json.rs:778-809 | walks down and sets without a check for wildcards; on a path without wildcards it is Set |
| `JsonPath.JsonDocument.ArrIndex` | src/redis/json.rs:682-695 | comparing texts finds the first structurally equal element, or -1 when there is none |
| `ByteStrings.LittleEndianSmall` | src/redis/bloom.rs:240-250 | in the fields of a record the first byte counts ones |
| `ByteStrings.BigEndianSmall` | src/redis/bloom.rs:236-239 | in the number of sub-filters, as in the counts of sentinels, the last byte counts ones |
| `ByteStrings.DecimalTens` | src/redis/bloom.rs:317-326 | the numbers in a page key are written with the highest digit first |
| `BloomMeta.EncodeMeta` | src/redis/bloom.rs:232-252 | the loop writes the header and one record for each of at most 65535 sub-filters |
| `BloomMeta.DecodeMeta` | src/redis/bloom.rs:257-295 | the loop reads the records the header announces; shorter data is refused |
| `BloomMeta.MetaRoundTrip` | src/redis/bloom.rs:232-295 | a meta entry reads back as written if and only if it has at most 65535 sub-filters; beyond that it loses the newest |
| `BloomMeta.ReadFits` | src/redis/bloom.rs:257-295 | whatever the bytes are, what is read from them has at most 65535 sub-filters and fits the widths it is stored in |
| `Bloom.PutBitAt` | src/redis/bloom.rs:210-217 | setting a bit of a page sets that bit and no other |
| `Bloom.PageKeyInjective` | src/redis/bloom.rs:317-326 | the page key tells the sub-filter and the page number |
| `Bloom.ReadsSomething` | src/redis/bloom.rs:329-342 | every key reads as no filter or as some filter, whatever its type, unless the trailer of its sentinel is damaged |
| `Bloom.ForeignReads` | src/redis/bloom.rs:257-266 | a payload reads as missing exactly when it is shorter than the sub-filters its third and fourth byte announce, and otherwise as a filter with that many |
| `Bloom.FreshSize` | src/redis/bloom.rs:151-207 | creating a filter never overflows, and its sub-filter has at least one bit and between 1 and 64 hash functions |
| `Bloom.GrownSize` | src/redis/bloom.rs:395-412 | a filter grows by one empty sub-filter with the next number, whose capacity, error rate, bits, hash functions and seeds follow from the newest one's |
| `Bloom.DefaultFilter` | src/redis/bloom.rs:376-394 | a key without a filter gets one with capacity 100 that doubles |
| `Bloom.PositionsExact` | src/redis/bloom.rs:221-227 | position number i is the first hash plus i times the second, modulo 2^64 and then modulo the number of bits |
| `Bloom.ProbeFilter` | src/redis/bloom.rs:478-492 | asking one sub-filter: it panics if and only if it has hash functions but no bits, or the first bit that is not set lies beyond the end of its page; otherwise it says whether all bits of the item are set |
| `Bloom.ExistsOne` | src/redis/bloom.rs:466-495 | BF.EXISTS on every store: it panics if and only if some sub-filter panics and all newer ones say no; otherwise the answer is yes exactly when some sub-filter has all bits of the item; no for a key that reads as missing |
| `Bloom.QueryPanicsExactly` | src/redis/bloom.rs:466-495 | with complete pages, BF.EXISTS panics if and only if some sub-filter has hash functions but no bits and every newer one can be hashed and misses the item |
| `Bloom.MarkPages` | src/redis/bloom.rs:439-446 | setting the bits on the loaded pages: it panics if and only if a page is too short for its bit; otherwise exactly those bits are added and no page changes its length |
| `Bloom.AddTo` | src/redis/bloom.rs:395-461 | an add to the filter a key reads as, on every store: the exact condition for a panic; otherwise, if all bits are set, the reply is 0 and nothing changes, else exactly the item's bits are added to the newest sub-filter and its count goes up by one; a sub-filter beyond the cap is cut off the stored meta |
| `Bloom.AddOne` | src/redis/bloom.rs:376-461 | BF.ADD on every store: a key that is missing or reads as missing gets a default filter first; it panics if and only if there is no sub-filter, a bit of the item cannot be read, or a checked sum overflows |
| `Bloom.AddPanicsExactly` | src/redis/bloom.rs:376-461 | with complete pages and unchecked sums, BF.ADD panics if and only if the filter has no sub-filter, or needs no new one and the newest has hash functions but no bits |
| `Bloom.HollowString` | src/redis/bloom.rs:257-266 | a string of four bytes reads as a filter without sub-filters, and adding to it panics |
| `Bloom.ZeroBitsString` | src/redis/bloom.rs:221-227 | a string of 64 bytes reads as one sub-filter with a hash function and no bits, and adding and asking both panic |
| `Bloom.FieldAsPage` | src/redis/bloom.rs:356-362 | a hash with the one field bf:0:p:0, empty, reads as a missing filter with a page that is too short, and adding to it panics |
| `BloomRuns.Perform` | src/redis/bloom.rs:376-495 | one add, query or creation on every store is exactly a step; a panic drops the transaction |
| `BloomRuns.Run` | src/redis/bloom.rs:376-495 | every run of adds, queries and creations on one key, from any store and whatever the key holds, is a chain of exact steps and touches the value at the key only |
| `BloomRuns.StepLater` | src/redis/bloom.rs:376-461 | no operation takes a sub-filter or a bit away, on any store |
| `BloomRuns.LaterHolds` | src/redis/bloom.rs:466-495 | what a filter holds it holds in every later state |
| `BloomRuns.AddHolds` | src/redis/bloom.rs:376-461 | an item whose add took effect is held afterwards, on any store |
| `BloomRuns.NoFalseNegative` | src/redis/bloom.rs:466-495 | in every run from any store, once an add has taken effect no later query for its item is answered with 0 |
| `BloomRuns.BitsStem` | src/redis/bloom.rs:376-461 | every bit a run leaves set was set before the run or is a position of an item that the run inserted into that sub-filter |
| `BloomRuns.YesIsFounded` | src/redis/bloom.rs:466-495 | in every run from any store, when a query is answered with 1, one sub-filter has every position of the item set, each before the run or by an insertion of the run into that sub-filter |
| `BloomRuns.TotalGrows` | src/redis/bloom.rs:456-459 | in every run from any store the recorded total grows by the number of adds that replied 1 below the cap, as long as the count of a non-scaling filter stays below 2^64 |
| `BloomRuns.GrownGood` | src/redis/bloom.rs:395-412 | growth keeps the sub-filters numbered, sized and saturated: all but the newest full, none over max(capacity, 1) |
| `BloomRuns.UnusedFilter` | src/redis/bloom.rs:395-412 | a sub-filter without pages holds no item, so an expanding add always inserts |
| `BloomRuns.TidyAdd` | src/redis/bloom.rs:376-461 | on a key these commands made, an add panics on overflow of checked sums only, and below the cap a new sub-filter holds nothing yet |
| `BloomRuns.StepTidy` | src/redis/bloom.rs:376-461 | every operation keeps a key these commands made well formed and saturated, with complete pages and none for sub-filters to come |
| `BloomRuns.TidyNeverPanics` | src/redis/bloom.rs:376-495 | in every run on a key these commands made, no query panics, and no add does without checked sums |
| `BloomRuns.FoundLater` | src/redis/bloom.rs:466-495 | in every run on a key these commands made, a query that follows an add of its item below the cap is answered with 1 |
| `BloomRuns.AddLost` | src/redis/bloom.rs:232-252 | an add is lost if and only if there are 65535 sub-filters, the newest is full, and no sub-filter already has the item |
| `BloomRuns.CapFreezes` | src/redis/bloom.rs:232-252 | from there on a run changes nothing any more: every query is answered as it would have been then |
| `BloomRuns.LosesAdd` | src/redis/bloom.rs:376-461 | from the empty store: reserve with capacity 1 and EXPANSION 256, add one item 65535 times, add an item with another position; the reply is 1 and the query for it is answered with 0 |
| `BloomRuns.TwoBitsSeparate` | src/redis/bloom.rs:221-227 | formulas with two bits and one hash function for which that run exists |
| `BloomRuns.Reserve` | src/redis/bloom.rs:654-686 | BF.RESERVE creates one empty sub-filter, refusing an existing key whatever it holds; an expansion below 1 stands for the default |
| `BloomRuns.AddMany` | src/redis/bloom.rs:734-752 | BF.MADD is a chain of adds in one transaction; it panics if and only if one of them does in the state the earlier ones made, and then leaves no trace |
| `BloomRuns.AddsHold` | src/redis/bloom.rs:734-752 | after BF.MADD on a key these commands made, every item added below the cap is held, and so is what was held before |
| `BloomRuns.Insert` | src/redis/bloom.rs:781-833 | BF.INSERT: NOCREATE on a missing filter is refused without a change; otherwise the filter is created with the defaults for unusable parameters, and the items are added as BF.MADD does; a panic leaves no trace |
| `BloomRuns.FilterInfo` | src/redis/bloom.rs:839-866 | BF.INFO's sums over the sub-filters: they panic or wrap around if and only if they do not fit a word |
| `HllRegisters.RegisterBit` | src/redis/hll.rs:96-105 | bit j of register r is bit 6r+j of the packed block, for registers that straddle bytes and for the last one |
| `HllRegisters.SetRegisterBit` | src/redis/hll.rs:108-120 | writing a register writes its six bits and no other bit of the block |
| `HllRegisters.SetThenGet` | src/redis/hll.rs:96-120 | a written register reads back, and every other register reads as before |
| `HllRegisters.SameRegisters` | src/redis/hll.rs:96-120 | a block is determined by its registers, byte for byte |
| `HyperLogLog.FourRegisters` | src/redis/hll.rs:224-239 | the shifts of the unrolled loop read the four registers of three bytes |
| `HyperLogLog.RegisterHistogram` | src/redis/hll.rs:218-262 | the unrolled histogram with its four counters counts every register value over all 16384 registers |
| `HyperLogLog.CountExact` | src/redis/hll.rs:218-262 | each count of the histogram is the number of registers with that value |
| `HyperLogLog.DenseSet` | src/redis/hll.rs:163-170 | raises one register to the maximum and tells whether it changed |
| `HyperLogLog.AddElements` | src/redis/hll.rs:392-398 | adding elements to the sketch of some gives the sketch of all, and reports a change exactly when a register changed |
| `HyperLogLog.MergeToRaw` | src/redis/hll.rs:292-302 | the raw registers are the pointwise maximum of the sources |
| `HyperLogLog.RawToDense` | src/redis/hll.rs:305-311 | the packed block reads back the raw registers |
| `HyperLogLog.MergedLevels` | src/redis/hll.rs:292-311 | the merged registers are those of the sketch of all elements together |
| `HyperLogLog.Merge` | src/redis/hll.rs:292-311 | merging sketches gives the sketch of the concatenated elements |
| `HyperLogLog.HighestOfSet` | src/redis/hll.rs:173-176 | neither order nor repetition of elements changes a register |
| `HyperLogLog.SketchUnique` | src/redis/hll.rs:96-176 | two sketches of the same set of elements are the same bytes |
| `HyperLogLog.HllCount` | src/redis/hll.rs:266-289 | the count of a sketch whose cache is stale or correct is the estimate of its histogram; the rewritten sketch has the same registers and a fresh cache, which is correct if and only if the count is below 2^63 or was not recomputed |
| `HyperLogLog.Recounted` | src/redis/hll.rs:89-92 | a count written into the header is read back without its highest bit, marked fresh, and no register changes |
| `HyperLogLog.PfAdd` | src/redis/hll.rs:376-409 | PFADD replies 1 exactly when some register rises; the reply 0 leaves the store unchanged; a value that is no sketch is left alone |
| `HyperLogLog.PfCount` | src/redis/hll.rs:415-466 | PFCOUNT is the estimate for all elements ever added to the keys, missing and foreign keys adding nothing |
| `HyperLogLog.PfMerge` | src/redis/hll.rs:473-504 | PFMERGE makes the destination the sketch of all elements of the sources, whatever it held |
| `HyperLogLog.Run` | src/redis/hll.rs:376-504 | in every run of PFADD, PFCOUNT and PFMERGE the replies are those of plain element lists, and every stored cache is stale or correct; a stored cache is fresh afterwards if and only if it was fresh before and no PFADD that replied 1 and no PFMERGE wrote the key |
| `HyperLogLog.StaysStale` | src/redis/hll.rs:424-440 | a key created by one PFADD still has a stale cache after any number of PFCOUNTs, each of which computed the count anew |
| `Bitmap.SetBitOp` | src/redis/bitmap.rs:109-143 | SETBIT returns the bit before and changes that bit only of the zero-extended string; the string grows to hold it and keeps its expiry |
| `Bitmap.GetBitOp` | src/redis/bitmap.rs:166-190 | GETBIT reads the zero-extended string |
| `Bitmap.BitOfNumber` | src/redis/bitmap.rs:166-190 | bit j of byte i is the binary digit of that byte's number, the highest first |
| `Bitmap.SetBits` | src/redis/bitmap.rs:109-143 | after any history of SETBITs every bit is its last write, or what it was |
| `Bitmap.BitCount` | src/redis/bitmap.rs:228-305 | BITCOUNT is the number of set bits of the whole string, or of those whose byte or bit position the indices enclose, a negative index counting from the end |
| `Bitmap.CoveredExact` | src/redis/bitmap.rs:251-302 | a bit is covered if and only if the indices enclose it or its byte |
| `Bitmap.CountsExact` | src/redis/bitmap.rs:228-305 | the count over the covered range is the number of set bits that the indices enclose |
| `Bitmap.WholeRange` | src/redis/bitmap.rs:251-302 | 0 and -1 cover the whole string, -1 and -1 its last byte or bit |
| `Bitmap.ByteRangeIsBitRange` | src/redis/bitmap.rs:251-302 | a byte range covers the same bits as the bit range from eight times its start to eight times its end plus seven, negative indices included |
| `Bitmap.BitPosInRange` | src/redis/bitmap.rs:57-84 | the nested scan finds the least matching position of the range, or -1 |
| `Bitmap.BitPos` | src/redis/bitmap.rs:345-373 | BITPOS without a range gives the least offset of the zero-extended string with that bit; for a one, -1 when there is none |
| `Bitmap.BitPosIn` | src/redis/bitmap.rs:375-424 | BITPOS gives the least matching offset whose byte or bit position the indices enclose, a negative index counting from the end, or -1 |
| `Bitmap.Combine` | src/redis/bitmap.rs:472-595 | for AND, OR, XOR, NOT, DIFF, ANDOR and ONE, every bit below the longest source has the bitwise meaning over the zero-extended sources |
| `Bitmap.LongestFits` | src/redis/bitmap.rs:472-477 | the longest length is an upper bound, and is 0 or the length of a source |
| `Bitmap.HavingExact` | src/redis/bitmap.rs:472-595 | what ONE and ANDOR count is the number of sources with the bit |
| `Bitmap.BitOpOp` | src/redis/bitmap.rs:457-601 | BITOP stores that combination under the destination alone and returns the longest length |
| `Hash.HSet` | src/redis/hash.rs:435-470 | HSET leaves in every field's entry the value its last pair gives, and the entries of other fields as they were; the reply and the sentinel count the new fields; on a value of another type it fails without a change |
| `Hash.SetPairsExact` | src/redis/hash.rs:450-464 | after the pairs a field holds the value given last, and a field that is not given stays |
| `Hash.HSetNx` | src/redis/hash.rs:480-513 | HSETNX changes nothing where the field's entry is stored, whatever the key holds; otherwise it writes that entry with the value and no other, counts it in a hash, and fails on a value of another type with the entry written |
| `Hash.HIncrBy` | src/redis/hash.rs:785-828 | HINCRBY refuses a value that is no integer without a change; it panics if and only if sums are checked and the sum does not fit 64 bits; otherwise a stored entry, and no other, is replaced by the 64-bit sum whatever the key holds, and a missing one is written, counted in a hash, and left behind by the failure on a value of another type |
| `Hash.IncreasedExact` | src/redis/hash.rs:785-828 | the sum is that of the stored number, or of 0, and the amount, where it fits 64 bits |
| `Hash.LargestOverflows` | src/redis/hash.rs:809-812 | the largest number increased by 1, with checked sums |
| `Hash.WrappedSum` | src/redis/hash.rs:809-812 | an unchecked sum fits 64 bits and differs by a multiple of 2^64, and is stored as it is if and only if it fits |
| `Hash.HDel` | src/redis/hash.rs:578-618 | HDEL removes the entries of the named fields and no others, repeated names counted once; with the last field the sentinel goes; on a value of another type it fails without a change |
| `Hash.HLen` | src/redis/hash.rs:645-658 | HLEN's number is the number of stored fields; on a value of another type it fails |
| `Hash.StraysFail` | src/redis/hash.rs:480-513 | a failed command does something if and only if it is an HSETNX or HINCRBY, on a value of another type, of a field whose entry is missing |
| `Hash.Execute` | src/redis/common/session.rs:601-618 | one command gives the reply and the value of the plain rules; a failed one leaves the store unchanged if and only if it runs outside EXEC or is not an HSETNX or HINCRBY of a missing entry on a value of another type |
| `Hash.StrayField` | src/redis/hash.rs:480-513 | HSETNX on a set fails, and inside EXEC leaves an entry where the set keeps its members |
| `Hash.Run` | src/redis/hash.rs:435-828 | in every run of HSET, HSETNX, HINCRBY, HDEL and HLEN on one key, inside EXEC or not, the fields and replies are those of a plain map, the sentinel exists exactly when there is a field and then counts them; a key that holds another type follows the plain rules for it |
| `Hash.PageExists` | src/redis/hash.rs:1077-1090 | a page exists if and only if the index is at most the number of pairs; without overflow checks also when it is so after losing its highest bit and the sum with COUNT still fits a machine word |
| `Hash.HScan` | src/redis/hash.rs:1026-1097 | one HSCAN page: a missing key has an empty page for every cursor; any other key has one if and only if the index the cursor is read as is at most the number of matching fields, up to a lost highest bit without overflow checks |
| `Hash.PlusRead` | src/redis/hash.rs:1047-1050 | a cursor with a plus sign is read as its number |
| `Hash.WideRead` | src/redis/hash.rs:1047-1050 | a cursor beyond a machine word is read as 0 |
| `Hash.CursorPastTheEnd` | src/redis/hash.rs:1077-1083 | the cursor +5 on three matching fields has no page |
| `Hash.HScanFrom` | src/redis/hash.rs:1026-1097 | with a positive COUNT the pages make up the matching list, in at most fields/COUNT + 1 pages |
| `Hash.ListedIsHash` | src/redis/hash.rs:1052-1066 | the listed pairs are exactly the fields of the hash that the pattern selects, with their values, if no field name holds a zero byte |
| `Hash.ListedOnce` | src/redis/hash.rs:72-77 | no field is listed twice, if no field name holds a zero byte |

## Left out

- LLEN, LRANGE, LINDEX, LPOS and the other read-only commands would only add easy members.
- Sets, sorted sets and streams: their element families take part in RENAME, MOVE and DEL as abstract writes, their own commands are not modelled.
- EXEC in runs over several types: `TypedRuns.Run` consists of single commands; inside EXEC a failed hash command can leave a field under a list's namespace (`Hash.Strays`).
- EXEC, WATCH and conflict retry: only that a failed single command is discarded and a failed command inside EXEC is not.
- Wall-clock arithmetic of TTLs: an item carries its expiry, and expiry is a step that removes a public entry.
- Values written before namespaces existed: keyspace runs start from the empty store, where every compound value records its namespace; the list, hash and Bloom commands also cover name-derived prefixes.
- Lists of 2^32 elements or more, hashes of 2^32 fields or more: their stored counts would wrap.
- Nested JSON containers are put back along the path the walk took rather than updated through a reference.
- The parser of JSON text, for which a reader of RFC 8259 stands in, the parser of path strings, number arithmetic, and JSON.ARRAPPEND, which sets one member like Set.
- Infinite and undefined JSON numbers: the printer is required to be injective and to use number characters only.
- A panic inside EXEC drops the whole batch; the runs treat it as a command without effect.
- BITOP DIFF1, and BITPOS with a start but no end: their intended meaning is not fixed.
- HINCRBYFLOAT, and commands on a sentinel whose namespace trailer cannot be read, all of which fail.
- Field names with a zero byte in HSCAN, HKEYS and HGETALL: the name is cut at its last zero byte, which `Hash.ListedOnce` and `Hash.ListedIsHash` exclude.
- SlateDB and Fjall, sockets, the wire protocol and argument parsing.
