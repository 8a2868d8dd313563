/** The keys of a jsonlog object, and which one a key is. */
module JsonKeys {
  import opened Bytes
  import opened Jsonlog

  const KEYS: nat := 29

  function Spelling(k: nat): string {
    match k
    case 0 => "timestamp" case 1 => "user" case 2 => "dbname" case 3 => "pid" case 4 => "remote_host"
    case 5 => "remote_port" case 6 => "session_id" case 7 => "line_num" case 8 => "ps" case 9 => "session_start"
    case 10 => "vxid" case 11 => "txid" case 12 => "error_severity" case 13 => "state_code" case 14 => "message"
    case 15 => "detail" case 16 => "hint" case 17 => "statement" case 18 => "application_name"
    case 19 => "backend_type" case 20 => "query_id" case 21 => "internal_query" case 22 => "internal_position"
    case 23 => "context" case 24 => "cursor_position" case 25 => "func_name" case 26 => "file_name"
    case 27 => "file_line_num" case _ => "leader_pid"
  }

  function KeyName(k: nat): bytes { Ascii(Spelling(k)) }

  /** The number of the first key from k on that is spelled like key; KEYS when there is none. */
  function KeyFrom(key: bytes, k: nat): (j: nat)
    requires k <= KEYS
    ensures k <= j <= KEYS && (j < KEYS ==> key == KeyName(j))
    decreases KEYS - k
  {
    if k == KEYS then KEYS else if key == KeyName(k) then k else KeyFrom(key, k + 1)
  }

  function KeyOf(key: bytes): nat { KeyFrom(key, 0) }

  // ----- No two keys are spelled alike -----

  /** Where keys of length n differ from each other. */
  function Place(n: nat): nat {
    match n
    case 6 => 1
    case 9 => 2
    case 10 => 3
    case 11 => 7
    case _ => 0
  }

  lemma EarlyDiffers(j: nat, k: nat)
    requires j < 9 && j < k < KEYS && |Spelling(j)| == |Spelling(k)|
    ensures var i := Place(|Spelling(j)|); i < |Spelling(j)| && Spelling(j)[i] as int % 0x80 != Spelling(k)[i] as int % 0x80
  {
  }

  lemma MiddleDiffers(j: nat, k: nat)
    requires 9 <= j < 18 && j < k < KEYS && |Spelling(j)| == |Spelling(k)|
    ensures var i := Place(|Spelling(j)|); i < |Spelling(j)| && Spelling(j)[i] as int % 0x80 != Spelling(k)[i] as int % 0x80
  {
  }

  lemma LateDiffers(j: nat, k: nat)
    requires 18 <= j < k < KEYS && |Spelling(j)| == |Spelling(k)|
    ensures var i := Place(|Spelling(j)|); i < |Spelling(j)| && Spelling(j)[i] as int % 0x80 != Spelling(k)[i] as int % 0x80
  {
  }

  lemma KeysDiffer(j: nat, k: nat)
    requires j < k < KEYS
    ensures KeyName(j) != KeyName(k)
  {
    if |Spelling(j)| == |Spelling(k)| {
      if j < 9 {
        EarlyDiffers(j, k);
      } else if j < 18 {
        MiddleDiffers(j, k);
      } else {
        LateDiffers(j, k);
      }
      LettersDiffer(Spelling(j), Spelling(k), Place(|Spelling(j)|));
    }
  }

  lemma LettersDiffer(s: string, t: string, i: nat)
    requires i < |s| == |t| && s[i] as int % 0x80 != t[i] as int % 0x80
    ensures Ascii(s) != Ascii(t)
  {
    assert Ascii(s)[i] != Ascii(t)[i];
  }

  /** Each key is found to be itself. */
  lemma KeyIsItself(j: nat)
    requires j < KEYS
    ensures KeyOf(KeyName(j)) == j
  {
    KeyFromFinds(j, 0);
  }

  lemma KeyFromFinds(j: nat, k: nat)
    requires k <= j < KEYS
    ensures KeyFrom(KeyName(j), k) == j
    decreases j - k
  {
    if k < j {
      KeysDiffer(k, j);
      KeyFromFinds(j, k + 1);
    }
  }

  /** Lower-case letters and underscores. */
  predicate IsPlainSpelling(s: string) { forall i | 0 <= i < |s| :: 'a' <= s[i] <= 'z' || s[i] == '_' }

  lemma EarlyIsPlain(k: nat)
    requires k < 9
    ensures IsPlainSpelling(Spelling(k))
  {
  }

  lemma MiddleIsPlain(k: nat)
    requires 9 <= k < 18
    ensures IsPlainSpelling(Spelling(k))
  {
  }

  lemma LateIsPlain(k: nat)
    requires 18 <= k < 24
    ensures IsPlainSpelling(Spelling(k))
  {
  }

  lemma LastIsPlain(k: nat)
    requires 24 <= k
    ensures IsPlainSpelling(Spelling(k))
  {
  }

  lemma PlainIsName(s: string)
    requires IsPlainSpelling(s)
    ensures IsName(Ascii(s))
  {
    forall c | c in Ascii(s)
      ensures !NeedsEscape(c)
    {
      var i :| 0 <= i < |s| && Ascii(s)[i] == c;
    }
  }

  /** No key needs an escape. */
  lemma KeyIsName(k: nat)
    ensures IsName(KeyName(k))
  {
    if k < 9 {
      EarlyIsPlain(k);
    } else if k < 18 {
      MiddleIsPlain(k);
    } else if k < 24 {
      LateIsPlain(k);
    } else {
      LastIsPlain(k);
    }
    PlainIsName(Spelling(k));
  }
}
