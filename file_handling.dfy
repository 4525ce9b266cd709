/**
 Model of the pure part of `Fizzik\Utility\FileHandling`: byte counts for
 binary size units (each unit is 1024 of the next smaller one) and the
 validators used on uploaded files (size limit, allowed extension, allowed
 MIME type).
 */
module FileHandling {

  /** `getBytesForKilobytes`: a whole number of 1024-byte blocks. */
  function GetBytesForKilobytes(kilobytes: int): (bytes: int)
    ensures bytes % 1024 == 0 && bytes / 1024 == kilobytes
  {
    kilobytes * 1024
  }

  /** `getBytesForMegabytes`: 1024 kilobytes per megabyte, i.e. 1024^2 bytes. */
  function GetBytesForMegabytes(megabytes: int): (bytes: int)
    ensures bytes == megabytes * 1048576
  {
    GetBytesForKilobytes(megabytes * 1024)
  }

  /** `getBytesForGigabytes`: 1024 megabytes per gigabyte, i.e. 1024^3 bytes. */
  function GetBytesForGigabytes(gigabytes: int): (bytes: int)
    ensures bytes == gigabytes * 1073741824
  {
    GetBytesForMegabytes(gigabytes * 1024)
  }

  /** `getBytesForTerabytes`: 1024 gigabytes per terabyte, i.e. 1024^4 bytes. */
  function GetBytesForTerabytes(terabytes: int): (bytes: int)
    ensures bytes == terabytes * 1099511627776
  {
    GetBytesForGigabytes(terabytes * 1024)
  }

  /** 1024 raised to the n-th power. */
  function Pow1024(n: nat): int
  {
    if n == 0 then 1 else 1024 * Pow1024(n - 1)
  }

  /** The four conversions are the powers 1 to 4 of 1024, and each unit is
      1024 of the next smaller one. */
  lemma ByteUnitsArePowersOf1024(x: int)
    ensures GetBytesForKilobytes(x) == x * Pow1024(1)
    ensures GetBytesForMegabytes(x) == x * Pow1024(2) == 1024 * GetBytesForKilobytes(x)
    ensures GetBytesForGigabytes(x) == x * Pow1024(3) == 1024 * GetBytesForMegabytes(x)
    ensures GetBytesForTerabytes(x) == x * Pow1024(4) == 1024 * GetBytesForGigabytes(x)
  {
  }

  /** `isValidSize`: a size passes when it does not exceed the maximum. */
  function IsValidSize(size: int, maxSize: int): bool
  {
    size <= maxSize
  }

  /** The size limit is inclusive, and a size given in kilobytes passes a
      limit given in megabytes exactly when it is at most 1024 kilobytes per
      megabyte of the limit. */
  lemma SizeLimitInclusive(size: int, kilobytes: int, megabytes: int)
    ensures IsValidSize(size, size) && !IsValidSize(size + 1, size)
    ensures IsValidSize(GetBytesForKilobytes(kilobytes), GetBytesForMegabytes(megabytes)) <==>
      kilobytes <= megabytes * 1024
  {
  }

  /** A size that passes a limit still passes when it shrinks or the limit
      grows. */
  lemma SizeCheckMonotone(size: int, smaller: int, maxSize: int, larger: int)
    requires IsValidSize(size, maxSize)
    requires smaller <= size && maxSize <= larger
    ensures IsValidSize(smaller, maxSize) && IsValidSize(size, larger)
  {
  }

  /** `in_array($needle, $haystack)` with exact equality: a scan from the front. */
  function InArray(needle: string, haystack: seq<string>): (found: bool)
    ensures found <==> exists i :: 0 <= i < |haystack| && haystack[i] == needle
  {
    if haystack == [] then false
    else haystack[0] == needle || InArray(needle, haystack[1..])
  }

  /** `isValidExtension`: the extension is one of the allowed ones. */
  function IsValidExtension(ext: string, validExts: seq<string>): (valid: bool)
    ensures valid <==> ext in validExts
  {
    InArray(ext, validExts)
  }

  /** `isValidMimeType`: the MIME type is one of the allowed ones. */
  function IsValidMimeType(mimeType: string, validTypes: seq<string>): (valid: bool)
    ensures valid <==> mimeType in validTypes
  {
    InArray(mimeType, validTypes)
  }
}
