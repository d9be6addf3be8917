/** The check `main` makes on its URL argument before doing anything else. */
module Cli {

  /** `url[i]` read from a NUL-terminated C string: past the end the program sees the NUL terminator. */
  function CharAt(url: string, i: nat): char
  {
    if i < |url| then url[i] else '\0'
  }

  /** The short-circuit test on the first bytes of the URL, as main performs it. */
  predicate SchemeOk(url: string)
  {
    CharAt(url, 0) == 'h' && CharAt(url, 1) == 't' && CharAt(url, 2) == 't' && CharAt(url, 3) == 'p' &&
    (CharAt(url, 4) == ':' || (CharAt(url, 4) == 's' && CharAt(url, 5) == ':'))
  }

  predicate StartsWith(s: string, prefix: string)
  {
    |prefix| <= |s| && s[..|prefix|] == prefix
  }

  /** The URL is accepted exactly when it begins with `http:` or `https:`. */
  lemma SchemeOkMeans(url: string)
    ensures SchemeOk(url) <==> StartsWith(url, "http:") || StartsWith(url, "https:")
  {
  }

  /** How many bytes of the URL the short-circuit test compares: it reads `url[0]`, `url[1]`, ...
    * in order and stops after the first mismatch; `url[4]` is compared twice, once with `:` and
    * once with `s`, and `url[5]` is read only after an `s`. */
  function BytesCompared(url: string): nat
  {
    if CharAt(url, 0) != 'h' then 1
    else if CharAt(url, 1) != 't' then 2
    else if CharAt(url, 2) != 't' then 3
    else if CharAt(url, 3) != 'p' then 4
    else if CharAt(url, 4) != 's' then 5
    else 6
  }

  /** The test reads no byte beyond the string's terminating NUL: the last byte it compares is
    * at most index `|url|`, every byte before that one matched a letter of `https` (so it was
    * not the NUL), and an accepted URL is read only within its characters. */
  lemma SchemeReadsWithinString(url: string)
    ensures 1 <= BytesCompared(url) <= |url| + 1
    ensures forall i :: 0 <= i < BytesCompared(url) - 1 ==> CharAt(url, i) == "https"[i]
    ensures SchemeOk(url) ==> BytesCompared(url) <= |url|
  {
  }
}
