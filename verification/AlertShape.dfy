/** What an alert's metadata is shown as, entry by entry, and which words and links are masked. */
module AlertShape {
  import opened Text
  import opened Json
  import opened AlertMetadata

  /** The same keys in the same order, each value as it is to be shown. */
  ghost predicate ShownRecord(before: Record, after: Record)
    decreases before
  {
    |after| == |before| && forall i | 0 <= i < |before| :: ShownEntry(before[i], after[i])
  }

  ghost predicate ShownEntry(before: Field, after: Field)
    decreases before
  {
    && after.key == before.key
    && if IsSensitive(before.key) then after.value == Str("••••••••")
       else
         match before.value
         case Obj(fields) => after.value.Obj? && ShownRecord(fields, after.value.fields)
         case Str(s) => after.value == if MaskedString(s) then Str("••••••••") else before.value
         case _ => after.value == before.value
  }

  lemma {:induction false} RecordIsShown(meta: Record)
    ensures ShownRecord(meta, Sanitized(meta))
    decreases meta
  {
    hide IsSensitive, MaskedString;
    forall i | 0 <= i < |meta| ensures ShownEntry(meta[i], Sanitized(meta)[i]) {
      SanitizedAt(meta, i);
      if meta[i].value.Obj? { RecordIsShown(meta[i].value.fields); }
    }
  }

  lemma {:induction false} OneRecordIsShown(before: Record, a: Record, b: Record)
    requires ShownRecord(before, a) && ShownRecord(before, b)
    ensures a == b
    decreases before
  {
    hide IsSensitive, MaskedString;
    forall i | 0 <= i < |before| ensures a[i] == b[i] {
      assert ShownEntry(before[i], a[i]) && ShownEntry(before[i], b[i]);
      if before[i].value.Obj? && !IsSensitive(before[i].key) {
        OneRecordIsShown(before[i].value.fields, a[i].value.fields, b[i].value.fields);
      }
    }
  }

  /** The sanitised record is the one record that may be shown. */
  lemma SanitizedExactly(meta: Record, out: Record)
    ensures Sanitized(meta) == out <==> ShownRecord(meta, out)
  {
    hide ShownRecord, Sanitized;
    RecordIsShown(meta);
    if ShownRecord(meta, out) { OneRecordIsShown(meta, out, Sanitized(meta)); }
  }

  // ---- words and links ----

  /** A key is sensitive exactly if it contains one of these words, in any case. */
  lemma SensitiveWords(key: string)
    ensures IsSensitive(key)
            <==> exists word | word in ["token", "secret", "password", "key", "rtsp", "url", "signed", "credential",
                                        "authorization", "chat_id", "recipient"] :: Contains(Lower(key), word)
  {
    hide Contains, Lower;
    var words := KEY_PARTS;
    if IsSensitive(key) {
      var i :| 0 <= i < |words| && Contains(Lower(key), words[i]);
      assert words[i] in words;
    }
    if exists word | word in words :: Contains(Lower(key), word) {
      var word :| word in words && Contains(Lower(key), word);
      var i :| 0 <= i < |words| && words[i] == word;
    }
  }

  /** A stream address, in any case, is masked. */
  lemma StreamIsMasked(s: string)
    requires |s| >= 5 && Lower(s[..5]) == "rtsp:"
    ensures MaskedString(s)
  {
    assert Lower(s)[..5] == Lower(s[..5]);
  }

  /** So is a link with something before a question mark and `sig=` further on, all on one line, in any case. */
  lemma SignedLinkIsMasked(scheme: string, before: string, between: string, rest: string)
    requires Lower(scheme) in ["http://", "https://"] && before != ""
    requires forall k | 0 <= k < |before| :: before[k] !in "\n\r\U{2028}\U{2029}"
    requires forall k | 0 <= k < |between| :: between[k] !in "\n\r\U{2028}\U{2029}"
    ensures MaskedString(scheme + before + "?" + between + "sig=" + rest)
  {
    hide At, IsStreamAddress;
    var tail := Lower(before) + "?" + Lower(between) + "sig=" + Lower(rest);
    var s := scheme + before + "?" + between + "sig=" + rest;
    assert Lower("?") == "?" && Lower("sig=") == "sig=";
    assert Lower(s) == Lower(scheme) + tail;
    LowerKeepsLine(before);
    LowerKeepsLine(between);
    TailIsSigned(Lower(before), Lower(between), Lower(rest));
    assert |Lower(scheme)| == |scheme|;
    assert Lower(s)[|scheme|..] == tail;
    assert Lower(s)[..|scheme|] == Lower(scheme);
  }

  lemma LowerKeepsLine(s: string)
    requires forall k | 0 <= k < |s| :: s[k] !in "\n\r\U{2028}\U{2029}"
    ensures OneLine(Lower(s))
  {
  }

  lemma TailIsSigned(before: string, between: string, rest: string)
    requires before != "" && OneLine(before) && OneLine(between)
    ensures HasSignature(before + "?" + between + "sig=" + rest)
  {
    var tail := before + "?" + between + "sig=" + rest;
    var q, e := |before|, |before| + 1 + |between|;
    assert tail[q] == '?' && tail[..q] == before && tail[q + 1..e] == between;
    assert tail[e..e + 4] == "sig=";
    assert At(tail, "sig=", e);
  }

  lemma SignedTail(lower: string, from: nat)
    requires from <= |lower| && HasSignature(lower[from..])
    ensures '?' in lower && Contains(lower, "sig=")
  {
    var rest := lower[from..];
    var q, e :| 1 <= q < e <= |rest| && rest[q] == '?' && At(rest, "sig=", e) && OneLine(rest[..q])
                && OneLine(rest[q + 1..e]);
    assert lower[from + q] == '?';
    TailContains(lower, from, "sig=", e);
  }

  lemma TailContains(s: string, from: nat, pat: string, k: nat)
    requires from <= |s| && At(s[from..], pat, k)
    ensures Contains(s, pat)
  {
    assert s[from..|s|] == s[from..];
    AtInSlice(s, from, |s|, pat, k);
  }

  /** Nothing else is masked: a string must begin like a stream address, or like a link and have both `?` and `sig=`. */
  lemma OthersAreKept(s: string)
    ensures MaskedString(s) ==>
              || (|s| >= 5 && Lower(s)[..5] == "rtsp:")
              || (((|s| >= 7 && Lower(s)[..7] == "http://") || (|s| >= 8 && Lower(s)[..8] == "https://"))
                  && '?' in Lower(s) && Contains(Lower(s), "sig="))
  {
    hide HasSignature, Contains;
    var lower := Lower(s);
    if StartsWith(lower, "http://") && HasSignature(lower[7..]) { SignedTail(lower, 7); }
    if StartsWith(lower, "https://") && HasSignature(lower[8..]) { SignedTail(lower, 8); }
  }
}
