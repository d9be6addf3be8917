/** How the helper reports: the status marker on standard output
  * (`write_result`), the one-line diagnostic on standard error (`err`) and
  * the usage line (`usage`).
  */
module Report {
  import opened Host

  /** The failure codes; each is the character the marker carries. */
  const E_BROWSER: int := 'B' as int
  const E_SERVER: int := 'S' as int
  const E_NETWORK: int := 'N' as int
  const E_TIMEOUT: int := 'T' as int

  predicate IsKnownCode(result: int)
  {
    result == E_BROWSER || result == E_SERVER || result == E_NETWORK || result == E_TIMEOUT
  }

  const NUL: char := '\0'

  /** The size of the buffer `err` formats into: 64 bytes for the prefix and 1024 for the detail. */
  const ERR_BUF_SIZE: int := 64 + 1024

  const USAGE_LINE: string := "usage: oauth2-helper http-url\n"

  predicate NulFree(s: string)
  {
    forall i :: 0 <= i < |s| ==> s[i] != NUL
  }

  function Min(a: int, b: int): int { if a <= b then a else b }

  // ---------------------------------------------------------------------------
  // write_result

  /** The byte `buf[1] = result` stores: the low eight bits of the code. */
  function CodeByte(result: int): (c: char)
    ensures IsByte(c)
    ensures 0 <= result < 256 ==> c as int == result
  {
    (result % 256) as char
  }

  /** The status marker written to standard output for a run's outcome. */
  function ResultMarker(result: int): (m: string)
    ensures |m| == (if result == 0 then 2 else 3)
    ensures IsBytes(m) && m[|m| - 1] == '\n'
    ensures DecodeMarker(m) == if result == 0 then Succeeded else Failed(CodeByte(result))
  {
    if result == 0 then ['+', '\n'] else ['-', CodeByte(result), '\n']
  }

  /** What the invoking application reads back from the marker. */
  datatype Status = Succeeded | Failed(code: char) | Unreadable

  function DecodeMarker(m: string): Status
  {
    if m == ['+', '\n'] then Succeeded
    else if |m| == 3 && m[0] == '-' && m[2] == '\n' then Failed(m[1])
    else Unreadable
  }

  /** Distinct known codes give distinct markers, so the invoker can tell every failure apart. */
  lemma MarkerIdentifiesCode(r1: int, r2: int)
    requires 0 <= r1 < 256 && 0 <= r2 < 256
    requires ResultMarker(r1) == ResultMarker(r2)
    ensures r1 == r2
  {
  }

  /** Fills the three-byte buffer of write_result and returns the part of it that is written. */
  method ResultBytes(result: int) returns (bytes: string)
    ensures bytes == ResultMarker(result)
  {
    var buf := new char[3];
    var n: int;
    if result == 0 {
      buf[0] := '+';
      buf[1] := '\n';
      n := 2;
    } else {
      buf[0] := '-';
      buf[1] := CodeByte(result);
      buf[2] := '\n';
      n := 3;
    }
    bytes := buf[..n];
  }

  method WriteResult(h: Process, result: int)
    modifies h
    ensures h.trace == old(h.trace) + [Event.Write(Stdout, ResultMarker(result))]
  {
    var bytes := ResultBytes(result);
    h.Write(Stdout, bytes);
  }

  // ---------------------------------------------------------------------------
  // err

  /** The prefix `err` copies into its buffer for a result code. */
  function Prefix(result: int): string
  {
    if result == E_BROWSER then "E_BROWSER: "
    else if result == E_SERVER then "E_SERVER: "
    else if result == E_NETWORK then "E_NETWORK: "
    else if result == E_TIMEOUT then "E_TIMEOUT: "
    else "E_UNKNOWN: "
  }

  /** Every prefix is `E_<NAME>: `, holds no NUL, and for a known code its name starts with the
    * code's own letter (the byte the status marker carries); every other value gets E_UNKNOWN. */
  lemma PrefixShape(result: int)
    ensures var p := Prefix(result);
      10 <= |p| <= 11 && NulFree(p) && IsBytes(p) && p[..2] == "E_" && p[|p| - 2..] == ": "
    ensures IsKnownCode(result) ==> Prefix(result)[2] == result as char
    ensures Prefix(result) == "E_UNKNOWN: " <==> !IsKnownCode(result)
  {
    var p := Prefix(result);
    if result == E_BROWSER {
      assert p == "E_BROWSER: ";
    } else if result == E_SERVER {
      assert p == "E_SERVER: ";
    } else if result == E_NETWORK {
      assert p == "E_NETWORK: ";
    } else if result == E_TIMEOUT {
      assert p == "E_TIMEOUT: ";
    } else {
      assert p == "E_UNKNOWN: ";
    }
  }

  /** A C string's terminating NUL: the first NUL of a sequence that holds one. */
  lemma {:induction false} FirstNul(s: string) returns (n: int)
    requires !NulFree(s)
    ensures 0 <= n < |s| && s[n] == NUL && NulFree(s[..n])
  {
    if s[0] == NUL {
      n := 0;
    } else {
      var j :| 0 <= j < |s| && s[j] == NUL;
      assert s[1..][j - 1] == NUL;
      var m := FirstNul(s[1..]);
      n := m + 1;
      assert s[..n] == [s[0]] + s[1..][..m];
    }
  }

  lemma FirstNulExists(s: string)
    requires !NulFree(s)
    ensures exists n :: 0 <= n < |s| && s[n] == NUL && NulFree(s[..n])
  {
    var n := FirstNul(s);
  }

  /** The C string stored at the start of `s`: everything before the first NUL. */
  ghost function CString(s: string): string
  {
    if NulFree(s) then s
    else
      FirstNulExists(s);
      var n :| 0 <= n < |s| && s[n] == NUL && NulFree(s[..n]);
      s[..n]
  }

  /** The C string is a NUL-free prefix of `s`, ended by a NUL or by the end of `s`. */
  lemma CStringShape(s: string)
    ensures var c := CString(s);
      |c| <= |s| && c == s[..|c|] && NulFree(c) && (|c| < |s| ==> s[|c|] == NUL)
  {
  }

  /** If `s[..n]` holds no NUL and `n` ends `s` or holds one, the C string of `s` is `s[..n]`. */
  lemma CStringAt(s: string, n: int)
    requires 0 <= n <= |s|
    requires forall i :: 0 <= i < n ==> s[i] != NUL
    requires n == |s| || s[n] == NUL
    ensures CString(s) == s[..n]
  {
  }

  /** The number of detail bytes `vsnprintf` may store after `prefix` (one byte is kept for the NUL). */
  function DetailRoom(prefix: string): int
  {
    ERR_BUF_SIZE - |prefix| - 1
  }

  /** The bytes err writes after copying `prefix` and formatting `detail`: the C string of the
    * prefix followed by as much of the detail as the buffer holds. */
  ghost function Composed(prefix: string, detail: string): string
    requires |prefix| < ERR_BUF_SIZE
  {
    CString(prefix + detail[..Min(|detail|, DetailRoom(prefix))])
  }

  /** The bytes `err(result, ...)` writes to standard error when the formatted detail is `detail`:
    * the C string in the buffer after the prefix and the capped detail were stored, NUL-terminated. */
  ghost function DiagnosticText(result: int, detail: string): string
  {
    PrefixShape(result);
    Composed(Prefix(result), detail)
  }

  /** The diagnostic starts with the code's prefix, never fills the buffer, and is the whole
    * detail when the detail fits and holds no NUL; a longer detail is cut at the buffer's end. */
  lemma DiagnosticShape(result: int, detail: string)
    ensures var d := DiagnosticText(result, detail);
      |Prefix(result)| <= |d| < ERR_BUF_SIZE && d[..|Prefix(result)|] == Prefix(result)
    ensures NulFree(detail) ==>
      DiagnosticText(result, detail) == Prefix(result) + detail[..Min(|detail|, DetailRoom(Prefix(result)))]
    ensures NulFree(detail) && |Prefix(result)| + |detail| < ERR_BUF_SIZE ==>
      DiagnosticText(result, detail) == Prefix(result) + detail
    ensures NulFree(detail) && |Prefix(result)| + |detail| >= ERR_BUF_SIZE ==>
      |DiagnosticText(result, detail)| == ERR_BUF_SIZE - 1
  {
  }

  /** strcpy(buf, s): `s` and its terminating NUL at the start of `buf`. */
  method Strcpy(buf: array<char>, s: string)
    requires |s| < buf.Length && NulFree(s)
    modifies buf
    ensures buf[..|s| + 1] == s + [NUL]
    ensures buf[|s| + 1..] == old(buf[|s| + 1..])
  {
    var i := 0;
    while i < |s|
      invariant 0 <= i <= |s|
      invariant buf[..i] == s[..i]
      invariant buf[|s| + 1..] == old(buf[|s| + 1..])
    {
      buf[i] := s[i];
      i := i + 1;
    }
    buf[|s|] := NUL;
    assert buf[..|s| + 1] == buf[..|s|] + [NUL];
  }

  /** strlen(buf): the index of the first NUL. */
  method Strlen(buf: array<char>) returns (n: int)
    requires exists j :: 0 <= j < buf.Length && buf[j] == NUL
    ensures 0 <= n < buf.Length && buf[n] == NUL
    ensures forall i :: 0 <= i < n ==> buf[i] != NUL
    ensures buf[..n] == CString(buf[..])
  {
    n := 0;
    while buf[n] != NUL
      invariant 0 <= n < buf.Length
      invariant forall i :: 0 <= i < n ==> buf[i] != NUL
      invariant exists j :: n <= j < buf.Length && buf[j] == NUL
      decreases buf.Length - n
    {
      n := n + 1;
    }
    CStringAt(buf[..], n);
  }

  /** The size cap of vsnprintf(buf + offset, sizeof buf - offset, ...) applied to already formatted
    * text: at most `buf.Length - offset - 1` bytes of it are stored at `offset`, then a NUL. */
  method StoreCapped(buf: array<char>, offset: int, text: string) returns (k: int)
    requires 0 <= offset < buf.Length
    modifies buf
    ensures k == Min(|text|, buf.Length - offset - 1)
    ensures buf[..offset] == old(buf[..offset])
    ensures buf[offset..offset + k] == text[..k]
    ensures buf[offset + k] == NUL
  {
    k := Min(|text|, buf.Length - offset - 1);
    var i := 0;
    while i < k
      invariant 0 <= i <= k
      invariant buf[..offset] == old(buf[..offset])
      invariant buf[offset..offset + i] == text[..i]
    {
      buf[offset + i] := text[i];
      i := i + 1;
    }
    buf[offset + k] := NUL;
  }

  /** The buffer work of err once the prefix is chosen: strcpy, strlen, the capped store of the
    * detail and the final strlen, in a buffer of ERR_BUF_SIZE bytes. */
  method Compose(prefix: string, detail: string) returns (msg: string)
    requires NulFree(prefix) && |prefix| < ERR_BUF_SIZE
    ensures msg == Composed(prefix, detail)
  {
    var buf := new char[ERR_BUF_SIZE];
    Strcpy(buf, prefix);
    assert buf[|prefix|] == (prefix + [NUL])[|prefix|];
    var len := Strlen(buf);
    assert len == |prefix|;
    var k := StoreCapped(buf, len, detail);
    var s := prefix + detail[..k];
    assert buf[..|s|] == s by {
      assert buf[..len] == (prefix + [NUL])[..len] == prefix;
      assert buf[..|s|] == buf[..len] + buf[len..len + k];
    }
    var n := Strlen(buf);
    assert n <= |s| by {
      assert buf[|s|] == NUL;
    }
    CStringAt(s, n);
    assert buf[..n] == s[..n];
    msg := buf[..n];
  }

  /** Builds the diagnostic for `result` as err does before writing it. */
  method FormatDiagnostic(result: int, detail: string) returns (msg: string)
    ensures msg == DiagnosticText(result, detail)
  {
    PrefixShape(result);
    msg := Compose(Prefix(result), detail);
  }

  /** err(result, ...): writes the diagnostic for `result` to standard error. */
  method Err(h: Process, result: int, detail: string)
    modifies h
    ensures h.trace == old(h.trace) + [Event.Write(Stderr, DiagnosticText(result, detail))]
  {
    var msg := FormatDiagnostic(result, detail);
    h.Write(Stderr, msg);
  }

  // ---------------------------------------------------------------------------
  // usage

  /** usage(): writes the usage line to standard error and exits with status 2. */
  method Usage(h: Process) returns (status: int)
    modifies h
    ensures status == 2
    ensures h.trace == old(h.trace) + [Event.Write(Stderr, USAGE_LINE)]
  {
    h.Write(Stderr, USAGE_LINE);
    status := 2;
  }
}
