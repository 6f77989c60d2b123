/**
 * A row of the record store and the identities attached to it. Every cell the
 * handler compares as text stays text here; an empty string stands for a cell
 * or field that is missing, which JavaScript treats as falsy just like "".
 */
module Records {
  import opened Text

  const PENDING := "pending"
  const ACCEPTED := "accepted"
  const CANCELED := "canceled"
  const PAID := "paid"

  /** One submission: the columns the handler writes at insertion. */
  datatype Record = Record(
    date: string,           // 14-digit date id, the row's key for later updates
    telegramUser: string,   // reporter identity, without a leading '@'
    chatId: int,            // the reporter's chat, where status notices go
    senderUsername: string, // normalized '@' handle of the money sender
    amount: nat,
    status: string)

  /** The `from` object of a message or callback query. */
  datatype From = From(username: string, firstName: string)

  /**
   * The reporter identity stored with a record: the first non-empty of
   * the two names, and a fixed placeholder when both are missing.
   */
  function Identity(from: From): (name: string)
    ensures name != ""
    ensures from.username != "" ==> name == from.username
    ensures from.username == "" && from.firstName != "" ==> name == from.firstName
    ensures from.username == "" && from.firstName == "" ==> name == "NoUsername"
  {
    if from.username != "" then from.username
    else if from.firstName != "" then from.firstName
    else "NoUsername"
  }

  /** `date.slice(0, 8)`: the calendar day YYYYMMDD of a date id. */
  function Day(date: string): string {
    Take(date, 8)
  }

  const IsoSeparators: set<char> := {'-', ':', '.', 'T', 'Z'}

  /**
   * The date id of a new record: the ISO-8601 clock text with its separators
   * removed, cut to 14 characters. Whatever the clock string, the id never
   * contains ':' and so never breaks the colon-separated callback payload it is
   * written into.
   */
  function DateIdOf(iso: string): (id: string)
    ensures ':' !in id
    ensures |id| <= 14
  {
    var stripped := RemoveAll(iso, IsoSeparators);
    var id := Take(stripped, 14);
    assert forall k :: 0 <= k < |id| ==> id[k] == stripped[k];
    id
  }

  /** The 24-character `YYYY-MM-DDTHH:MM:SS.sssZ` that `toISOString` produces. */
  predicate IsIsoTimestamp(iso: string) {
    && |iso| == 24
    && iso[4] == '-' && iso[7] == '-' && iso[10] == 'T'
    && iso[13] == ':' && iso[16] == ':' && iso[19] == '.' && iso[23] == 'Z'
    && forall i :: 0 <= i < 24 && i !in {4, 7, 10, 13, 16, 19, 23} ==> IsDigit(iso[i])
  }

  /** A run of digits followed by a separator: the digits stay, the separator goes. */
  lemma {:induction false} StripAfterDigits(s: string, i: nat)
    requires i < |s| && s[i] in IsoSeparators
    requires forall k :: 0 <= k < i ==> IsDigit(s[k])
    ensures RemoveAll(s, IsoSeparators) == s[..i] + RemoveAll(s[i + 1..], IsoSeparators)
  {
    assert s == s[..i] + ([s[i]] + s[i + 1..]);
    RemoveAllAppend(s[..i], [s[i]] + s[i + 1..], IsoSeparators);
    RemoveAllKeeps(s[..i], IsoSeparators);
    assert ([s[i]] + s[i + 1..])[1..] == s[i + 1..];
  }

  /** Removing the separators of the date half `YYYY-MM-DDT` keeps its 8 digits. */
  lemma StripDateHalf(iso: string)
    requires IsIsoTimestamp(iso)
    ensures RemoveAll(iso, IsoSeparators)
            == iso[..4] + iso[5..7] + iso[8..10] + RemoveAll(iso[11..], IsoSeparators)
  {
    var r1, r2, r3 := iso[5..], iso[8..], iso[11..];
    assert RemoveAll(iso, IsoSeparators) == iso[..4] + RemoveAll(r1, IsoSeparators) by {
      StripAfterDigits(iso, 4);
    }
    assert RemoveAll(r1, IsoSeparators) == iso[5..7] + RemoveAll(r2, IsoSeparators) by {
      assert r1[3..] == r2 && r1[..2] == iso[5..7];
      StripAfterDigits(r1, 2);
    }
    assert RemoveAll(r2, IsoSeparators) == iso[8..10] + RemoveAll(r3, IsoSeparators) by {
      assert r2[3..] == r3 && r2[..2] == iso[8..10];
      StripAfterDigits(r2, 2);
    }
  }

  /** Removing the separators of the time half `HH:MM:SS.sssZ` keeps its 9 digits. */
  lemma StripTimeHalf(iso: string)
    requires IsIsoTimestamp(iso)
    ensures RemoveAll(iso[11..], IsoSeparators)
            == iso[11..13] + iso[14..16] + iso[17..19] + iso[20..23]
  {
    var r3, r4, r5, r6 := iso[11..], iso[14..], iso[17..], iso[20..];
    assert RemoveAll(r3, IsoSeparators) == iso[11..13] + RemoveAll(r4, IsoSeparators) by {
      assert r3[3..] == r4 && r3[..2] == iso[11..13];
      StripAfterDigits(r3, 2);
    }
    assert RemoveAll(r4, IsoSeparators) == iso[14..16] + RemoveAll(r5, IsoSeparators) by {
      assert r4[3..] == r5 && r4[..2] == iso[14..16];
      StripAfterDigits(r4, 2);
    }
    assert RemoveAll(r5, IsoSeparators) == iso[17..19] + RemoveAll(r6, IsoSeparators) by {
      assert r5[3..] == r6 && r5[..2] == iso[17..19];
      StripAfterDigits(r5, 2);
    }
    assert RemoveAll(r6, IsoSeparators) == iso[20..23] by {
      assert r6[..3] == iso[20..23];
      StripAfterDigits(r6, 3);
      assert r6[4..] == [];
    }
  }

  /** Removing the separators of a well-formed timestamp leaves its 17 digits in order. */
  lemma StripTimestamp(iso: string)
    requires IsIsoTimestamp(iso)
    ensures RemoveAll(iso, IsoSeparators)
            == iso[..4] + iso[5..7] + iso[8..10] + iso[11..13] + iso[14..16] + iso[17..19] + iso[20..23]
  {
    StripDateHalf(iso);
    StripTimeHalf(iso);
    var a, b := iso[..4] + iso[5..7] + iso[8..10], iso[11..13] + iso[14..16] + iso[17..19];
    assert a + (b + iso[20..23]) == a + b + iso[20..23];
  }

  /**
   * For a well-formed timestamp the date id is the 14 digits
   * YYYYMMDDHHMMSS, so its day is YYYYMMDD.
   */
  lemma DateIdOfTimestamp(iso: string)
    requires IsIsoTimestamp(iso)
    ensures var id := DateIdOf(iso);
            |id| == 14 && IsDigits(id)
            && id == iso[..4] + iso[5..7] + iso[8..10] + iso[11..13] + iso[14..16] + iso[17..19]
            && Day(id) == iso[..4] + iso[5..7] + iso[8..10]
  {
    var want := iso[..4] + iso[5..7] + iso[8..10] + iso[11..13] + iso[14..16] + iso[17..19];
    StripTimestamp(iso);
    var id := DateIdOf(iso);
    assert |want| == 14;
    assert id == want by {
      assert RemoveAll(iso, IsoSeparators) == want + iso[20..23];
      assert (want + iso[20..23])[..14] == want;
    }
    assert IsDigits(id) by {
      forall k | 0 <= k < 14 ensures IsDigit(id[k]) {
        if k < 4 { assert id[k] == iso[k]; }
        else if k < 6 { assert id[k] == iso[k + 1]; }
        else if k < 8 { assert id[k] == iso[k + 2]; }
        else if k < 10 { assert id[k] == iso[k + 3]; }
        else if k < 12 { assert id[k] == iso[k + 4]; }
        else { assert id[k] == iso[k + 5]; }
      }
    }
    assert Day(id) == id[..8];
    assert id[..8] == iso[..4] + iso[5..7] + iso[8..10];
  }
}
