# Fizzik utilities in Dafny

A model of the self-contained utility classes of the Fizzik PHP library
(`Fizzik\Utility`), with proofs of what they promise:

- **AssocArray** (`assoc_array.dfy`): `keyChainExists` walks a chain of keys
  into nested arrays; `aggregate`/`aggregate_sum` deep-merge arrays into a
  result array, summing numbers under shared keys, recursing into pairs of
  string-keyed arrays, copying keys the result lacks and ignoring any other
  conflict. PHP values are the datatype `Value = Num | Str | Arr(map<Key, Value>)`
  with `Key = IntKey | StrKey`. `keyChainExists` keeps its loop and is proved
  against `Lookup`, the value a chain leads to. `aggregate_sum` keeps its
  foreach over the source and its recursion; its by-reference result array is
  returned as the new map, and it is proved equal to `MergeSum`, the per-key
  description of the merge. The class's doc comment speaks of a composite
  holding "all key chains found within both arrays"; the code keeps every
  chain of the result (`MergeSumKeepsChains`) and every chain of the source
  that meets no conflict on its way down (`MergeSumKeepsSourceChains`), but
  drops a source chain on a conflict (`IntegerKeyedListsNotConcatenated`), as
  its "Else Ignore" branch intends. The model follows the code.
- **Console** (`console.dfy`): the dot-dot-dot animation, a class whose counter
  indexes the four frames `""`, `"."`, `".."`, `"..."` and advances modulo 4.
  A ghost count of calls since the last reset shows that the n-th call returns
  `FrameAt(n)`, which is `n % 4` dots.
- **SleepHandler** (`sleep_handler.dfy`): a class with a seconds counter and a
  microseconds counter. `add` routes an amount to the microseconds counter only
  when its flag is the boolean `true`. `execute` performs the pending sleeps
  and zeroes both counters. The ghost field `pending` holds the add calls since
  the last execute, and the class invariant ties each counter to the sum of
  the amounts routed to it. The ghost field `slept` logs each `sleep`/`usleep`
  call as an effect in place of a real delay.
- **FileHandling** (`file_handling.dfy`): the byte conversions for kilobytes to
  terabytes (powers of 1024, each defined through the next smaller unit) and
  the validators `isValidSize`, `isValidExtension` and `isValidMimeType`.

Integers are unbounded and strings compare exactly (see "Left out").

## Model

| member | source | states |
|---|---|---|
| AssocArray.KeyChainExists | Fizzik/Utility/AssocArray.php:14-26 | the loop returns true exactly when every key of the chain is found in turn from the root (Lookup succeeds); an empty chain gives true |
| AssocArray.ChainPrefixExists | Fizzik/Utility/AssocArray.php:16-23 | if a chain exists, every prefix of it exists |
| AssocArray.ChainExtends | Fizzik/Utility/AssocArray.php:16-23 | a chain plus one key exists iff the chain leads to an array holding that key |
| AssocArray.HasStringKeys | Fizzik/Utility/AssocArray.php:71-73 | counting the string keys gives a positive count iff some key of the array is a string |
| AssocArray.AggregateSum | Fizzik/Utility/AssocArray.php:45-66 | the new result's keys are the old keys plus the source's; a key only in the source is copied unchanged; a key only in the result keeps its value; two numbers are summed; two string-keyed arrays are merged recursively; any other pair keeps the result's value |
| AssocArray.Aggregate | Fizzik/Utility/AssocArray.php:36-43 | with AGGREGATE_SUM the result is lhs and then rhs folded into it, and its keys are the union of all three; any other type leaves the result unchanged |
| AssocArray.CombineKeepsChains | Fizzik/Utility/AssocArray.php:47-59 | merging a source value into a result value keeps every key chain of the result value |
| AssocArray.MergeSumKeepsChains | Fizzik/Utility/AssocArray.php:45-66 | after aggregate_sum every key chain of the old result still exists |
| AssocArray.MergeSumKeepsSourceChains | Fizzik/Utility/AssocArray.php:45-66 | a key chain of the source survives aggregate_sum when each of its keys is absent from the result, is the last key, or leads to string-keyed arrays on both sides |
| AssocArray.CombineSumsLeaves | Fizzik/Utility/AssocArray.php:51-58 | numeric leaves at the end of a path of string-keyed arrays shared by both values are summed |
| AssocArray.MergeSumSumsLeaves | Fizzik/Utility/AssocArray.php:45-58 | the same at the top level, where the arrays themselves need no string keys |
| AssocArray.AggregateIntoEmptyCopies | Fizzik/Utility/AssocArray.php:36-43 | aggregating lhs with an empty rhs into an empty result yields lhs |
| AssocArray.IntegerKeyedListsNotConcatenated | Fizzik/Utility/AssocArray.php:55-59 | two integer-keyed lists under one key are not concatenated: the result keeps its own list and a source chain is lost |
| Console.FrameAt | Fizzik/Utility/Console.php:7 | the frame shown n calls after a reset is n % 4 dots, so frames repeat with period 4 |
| Console.Console.constructor | Fizzik/Utility/Console.php:10-12 | a new console's counter is 0, so its next frame is "" |
| Console.Console.AnimateDotDotDot | Fizzik/Utility/Console.php:17-21 | returns the frame the counter pointed at before the call, advances the counter modulo 4 so it stays in 0..3, and the n-th call since a reset returns FrameAt(n) |
| Console.Console.ResetAnimations | Fizzik/Utility/Console.php:23-25 | sets the counter to 0 whatever it was, so resetting twice equals resetting once |
| SleepHandler.TotalsAppend | Fizzik/Utility/SleepHandler.php:14-21 | one more add call moves only the counter its flag selects, by its amount |
| SleepHandler.TotalsPartition | Fizzik/Utility/SleepHandler.php:14-21 | every added amount goes to exactly one of the two counters |
| SleepHandler.SleepsFor | Fizzik/Utility/SleepHandler.php:24-29 | execute sleeps the seconds iff they are positive and the microseconds iff they are positive, seconds first; there is no other sleep, one per positive counter, and never a non-positive amount |
| SleepHandler.SleepHandler.constructor | Fizzik/Utility/SleepHandler.php:9-12 | a new handler has both counters at 0 |
| SleepHandler.SleepHandler.Add | Fizzik/Utility/SleepHandler.php:14-21 | a flag identical to true adds to the microseconds and leaves the seconds; any other flag, 1 included, adds to the seconds and leaves the microseconds; each counter stays the sum of the amounts routed to it |
| SleepHandler.SleepHandler.Execute | Fizzik/Utility/SleepHandler.php:23-32 | logs the sleeps SleepsFor gives for the old counters and sets both counters to 0, negative ones included |
| FileHandling.GetBytesForKilobytes | Fizzik/Utility/FileHandling.php:117-119 | the byte count is a whole number of 1024-byte blocks, kilobytes of them |
| FileHandling.GetBytesForMegabytes | Fizzik/Utility/FileHandling.php:121-123 | megabytes times 1024^2 |
| FileHandling.GetBytesForGigabytes | Fizzik/Utility/FileHandling.php:125-127 | gigabytes times 1024^3 |
| FileHandling.GetBytesForTerabytes | Fizzik/Utility/FileHandling.php:129-131 | terabytes times 1024^4 |
| FileHandling.ByteUnitsArePowersOf1024 | Fizzik/Utility/FileHandling.php:117-131 | the four conversions multiply by 1024 to the powers 1 to 4, and each is 1024 times the next smaller unit |
| FileHandling.SizeCheckMonotone | Fizzik/Utility/FileHandling.php:113-115 | a size that passes still passes when it shrinks or the limit grows |
| FileHandling.SizeLimitInclusive | Fizzik/Utility/FileHandling.php:113-115 | a size equal to the maximum is valid and one byte more is not; k kilobytes fit m megabytes iff k <= 1024 m |
| FileHandling.InArray | Fizzik/Utility/FileHandling.php:106 | the scan finds the needle iff some position of the list holds it |
| FileHandling.IsValidExtension | Fizzik/Utility/FileHandling.php:105-107 | valid iff the extension is an element of the allowed list |
| FileHandling.IsValidMimeType | Fizzik/Utility/FileHandling.php:109-111 | valid iff the MIME type is an element of the allowed list |

## Left out

- The database wrappers (`Fizzik/Database/MySqlDatabase.php`, `RedisDatabase.php`, `MongoDBDatabase.php`): every operation forwards to mysqli, Predis or the MongoDB client, whose behaviour is not part of this model.
- The file-system and shell operations of `FileHandling` (permission changes, recursive deletion, directory creation, copying through a shell): pure I/O.
- `FileHandling::generateTempFileIdentifier` (a hash of a seed and the wall-clock time) and `FileHandling::getFileExtension` (PHP's `pathinfo`): a clock and a library call.
- `fizzik-autoloader.php`: class-loading plumbing.
- SleepHandler.SleepHandler.Execute: real delays are not modelled; each `sleep`/`usleep` call is an entry of the ghost log `slept`.
- AssocArray.Combine: PHP's `is_numeric` also accepts numeric strings and floats; the model has integers only and treats every string as non-numeric.
- AssocArray.Value: booleans, null, floats and objects are not modelled; strings stand for every non-numeric scalar.
- AssocArray.Key: keys are taken as already normalised by PHP (a decimal string key such as "1" is the integer key 1).
- AssocArray.Lookup: `key_exists` on a non-array intermediate value (an error or a warning depending on the PHP version) is modelled as "not found".
- AssocArray.AggregateSum: PHP references are modelled as values; the source arrays are only read, and a result that aliases `lhs` or `rhs` is not modelled. The order of keys in the result array is not modelled; the merge handles each key independently, so the values do not depend on it.
- AssocArray.Aggregate: the `switch` compares the aggregation type loosely; the model takes an integer, so values like `true` or `"1"` that PHP would also match are not modelled.
- SleepHandler.SleepHandler.Add: amounts are integers; PHP also accepts floats such as `add(0.5)`, and `sleep` truncates a float amount. Fractional amounts are not modelled.
- FileHandling.GetBytesForKilobytes: arguments are integers; PHP also accepts floats such as `getBytesForMegabytes(0.5)`. The same holds for GetBytesForMegabytes, GetBytesForGigabytes and GetBytesForTerabytes.
- FileHandling.GetBytesForTerabytes: PHP integers overflow to floats beyond 64 bits; the conversions use unbounded integers. The same holds for the other three conversions and for the counters of SleepHandler.
- FileHandling.InArray: `in_array` without its strict flag compares loosely (`"1" == "01"`); the model uses exact string equality, and the allowed lists are sequences rather than keyed arrays.
