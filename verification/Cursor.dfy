/** The page token: a timestamp, an underscore and a task id, in base64url. */
module Cursor {
  import opened Text
  import opened Errors
  import Base64
  import Calendar
  import Timestamp

  function RawToken(updatedAt: int, taskId: Str): Str {
    Timestamp.Format(updatedAt) + ['_'] + taskId
  }

  function EncodePageToken(updatedAt: int, taskId: Str): Str {
    Base64.Encode(RawToken(updatedAt, taskId))
  }

  function DecodePageToken(token: Str): Result<(int, Str), Error> {
    match Base64.Decode(token)
    case None => Err(ParseError)
    case Some(decoded) =>
      var cut := Text.IndexByte(decoded, '_');
      if cut < 0 then Err(ParseError)
      else
        var timestampText, taskIdText := decoded[..cut], decoded[cut + 1..];
        if timestampText == [] || taskIdText == [] then Err(ParseError)
        else
          match Timestamp.Parse(timestampText)
          case None => Err(ParseError)
          case Some(updatedAt) => Ok((updatedAt, taskIdText))
  }

  /** The years whose timestamps time.Parse reads back. */
  predicate Printable(updatedAt: int) {
    0 <= Calendar.YearAt(updatedAt) < 10_000
  }

  lemma CutRaw(updatedAt: int, taskId: Str)
    ensures
      var text := Timestamp.Format(updatedAt);
      var raw := RawToken(updatedAt, taskId);
      text != [] && IndexByte(raw, '_') == |text| && raw[..|text|] == text && raw[|text| + 1..] == taskId
  {
    Timestamp.FormatHasNoUnderscore(updatedAt);
    IndexByteAfter(Timestamp.Format(updatedAt), '_', taskId);
  }

  /**
   Decoding an encoded cursor gives back its instant and id exactly when the id is not empty
   and the year has four digits; every other cursor is refused.
   */
  lemma DecodeEncode(updatedAt: int, taskId: Str)
    ensures DecodePageToken(EncodePageToken(updatedAt, taskId))
         == if taskId != [] && Printable(updatedAt) then Ok((updatedAt, taskId)) else Err(ParseError)
  {
    Base64.RoundTrip(RawToken(updatedAt, taskId));
    CutRaw(updatedAt, taskId);
    if Printable(updatedAt) {
      Timestamp.ParseFormat(updatedAt);
    } else {
      Timestamp.ParseRejectsOtherYears(updatedAt);
    }
  }

  /**
   Any token at all is accepted exactly when it is the base64 of a timestamp, an underscore and an id
   that is not empty, and then it stands for these; every other token is refused with one error.
   */
  lemma DecodeExactly(token: Str, updatedAt: int, taskId: Str)
    ensures DecodePageToken(token) == Ok((updatedAt, taskId))
       <==> taskId != [] && exists stamp: Str ::
              '_' !in stamp && Base64.Decode(token) == Some(stamp + ['_'] + taskId)
              && Timestamp.Parse(stamp) == Some(updatedAt)
    ensures DecodePageToken(token).Err? ==> DecodePageToken(token) == Err(ParseError)
  {
    hide Base64.Decode, Timestamp.Parse;
    var decoded := Base64.Decode(token);
    if decoded.Some? {
      var cut := IndexByte(decoded.value, '_');
      if cut >= 0 {
        assert decoded.value == decoded.value[..cut] + ['_'] + decoded.value[cut + 1..];
      }
    }
    if stamp: Str :| '_' !in stamp && decoded == Some(stamp + ['_'] + taskId)
                     && Timestamp.Parse(stamp) == Some(updatedAt) {
      IndexByteAfter(stamp, '_', taskId);
      NoEmptyStamp();
    }
  }

  lemma NoEmptyStamp()
    ensures Timestamp.Parse([]) == None
  {
  }

  /** No other cursor, printable or not, shares the token of a printable one. */
  lemma EncodeInjective(updatedAt: int, taskId: Str, updatedAt': int, taskId': Str)
    requires Printable(updatedAt)
    requires EncodePageToken(updatedAt, taskId) == EncodePageToken(updatedAt', taskId')
    ensures updatedAt == updatedAt' && taskId == taskId'
  {
    Base64.RoundTrip(RawToken(updatedAt, taskId));
    Base64.RoundTrip(RawToken(updatedAt', taskId'));
    CutRaw(updatedAt, taskId);
    CutRaw(updatedAt', taskId');
    Timestamp.ParseFormat(updatedAt);
    if Printable(updatedAt') {
      Timestamp.ParseFormat(updatedAt');
    } else {
      Timestamp.ParseRejectsOtherYears(updatedAt');
    }
  }

  /** A token is never the empty string, which asks for the first page. */
  lemma TokenNotEmpty(updatedAt: int, taskId: Str)
    ensures EncodePageToken(updatedAt, taskId) != []
  {
    Base64.EncodeShape(RawToken(updatedAt, taskId));
  }
}
