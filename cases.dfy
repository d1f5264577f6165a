/** Worked cases of the extractor's rules on concrete lines. */
module Cases {
  import opened Text
  import opened Extractor

  /** A metadata value stops at the next colon: an ISO timestamp keeps
      only its date and hour. */
  lemma {:induction false} TimestampCut()
    ensures MetaValue("**Generated**: 2025-01-15T10:30:00Z", Generated) == "2025-01-15T10"
  {
    TimestampLabel();
    TimestampTake();
    TimestampTrim();
  }

  /** The value of a label line is read from the text after the label. */
  lemma {:induction false} ValueAfterLabel(key: MetaKey, rest: string)
    ensures StartsWith(Label(key) + rest, Label(key))
    ensures MetaValue(Label(key) + rest, key) == Trim(TakeUntil(rest, ':'))
  {
    var line := Label(key) + rest;
    assert line[..|Label(key)|] == Label(key);
    assert line[|Label(key)|..] == rest;
  }

  lemma {:induction false} TimestampLabel()
    ensures MetaValue("**Generated**: 2025-01-15T10:30:00Z", Generated)
            == Trim(TakeUntil(" 2025-01-15T10:30:00Z", ':'))
  {
    assert "**Generated**: 2025-01-15T10:30:00Z" == Label(Generated) + " 2025-01-15T10:30:00Z";
    ValueAfterLabel(Generated, " 2025-01-15T10:30:00Z");
  }

  lemma {:induction false} TimestampTake()
    ensures TakeUntil(" 2025-01-15T10:30:00Z", ':') == " 2025-01-15T10"
  {
    var rest := " 2025-01-15T10:30:00Z";
    assert rest[..14] == " 2025-01-15T10" && rest[14] == ':';
    assert ':' !in " 2025-01-15T10";
    TakeUntilAt(rest, ':', 14);
  }

  lemma {:induction false} TimestampTrim()
    ensures Trim(" 2025-01-15T10") == "2025-01-15T10"
  {
    assert " 2025-01-15T10"[1..] == "2025-01-15T10";
    assert TrimStart(" 2025-01-15T10") == "2025-01-15T10";
    assert TrimEnd("2025-01-15T10") == "2025-01-15T10";
  }
}
