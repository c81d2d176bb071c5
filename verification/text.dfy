/** The two string helpers the screens apply: shortening a card preview, and
    cutting an ISO timestamp down to its date. Characters stand for the
    UTF-16 code units JavaScript strings index by. */
module TextUtil {

  const Ellipsis: string := "..."

  /** `truncateText`: text that fits is returned as is; longer text keeps its
      first `maxLength` characters and gains an ellipsis. */
  function Truncate(text: string, maxLength: nat): (shown: string)
    ensures |text| <= maxLength ==> shown == text
    ensures |text| > maxLength ==> |shown| == maxLength + |Ellipsis|
    ensures |text| > maxLength ==> shown[maxLength..] == Ellipsis
    ensures var keep := if |text| < maxLength then |text| else maxLength;
            keep <= |shown| && shown[..keep] == text[..keep]
    ensures |shown| <= maxLength + |Ellipsis|
  {
    if |text| <= maxLength then text
    else text[..maxLength] + Ellipsis
  }

  /** Truncating a preview a second time changes nothing. */
  lemma TruncateIdempotent(text: string, maxLength: nat)
    ensures Truncate(Truncate(text, maxLength), maxLength) == Truncate(text, maxLength)
  {
  }

  /** `s.split("T")[0]`: everything before the first 'T', or all of `s`
      when it has none. */
  function DatePart(timestamp: string): (date: string)
    ensures 'T' !in date
    ensures |date| <= |timestamp| && date == timestamp[..|date|]
    ensures |date| < |timestamp| ==> timestamp[|date|] == 'T'
  {
    if |timestamp| == 0 || timestamp[0] == 'T' then ""
    else [timestamp[0]] + DatePart(timestamp[1..])
  }

  /** Joining a T-free date and a time with 'T', as `toISOString` does, and
      splitting again at 'T' gives the date back. */
  lemma {:induction false} DatePartOfJoined(date: string, time: string)
    requires 'T' !in date
    ensures DatePart(date + "T" + time) == date
  {
    if |date| > 0 {
      assert (date + "T" + time)[1..] == date[1..] + "T" + time;
      DatePartOfJoined(date[1..], time);
    }
  }
}
