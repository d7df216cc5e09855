/**
 * lib/config/translations.ts: the interface texts in English, Hebrew and
 * Arabic, and `getTranslation`, which falls back to English. The tables are
 * kept as entry lists in their written order: the object literals name the
 * key `transcribing` twice, and the later value is the one that counts.
 */
module Translations {
  import opened Wrappers

  /** The keys of the `Translations` interface. */
  datatype Key =
    | UploadTab
    | UrlTab
    | RecordTab
    | SelectLanguage
    | DragAndDrop
    | SelectFile
    | Uploading
    | Transcribing
    | SupportedFormats
    | FullTranscription
    | Segments
    | CopyToClipboard
    | DownloadAsTxt
    | DownloadAsSrt
    | UrlUploadSoon
    | RecordingSoon
    | PleaseSelectLanguage
    | ErrorTitle
    | FileTooLarge
    | MaxFileSize
    | ProcessingLargeFiles
    | Analyzing
    | Compressing
    | Splitting
    | Processing
    | MergingResults

  /**
   * The keys of a table, in the order the three object literals write them
   * (all three use this order, `transcribing` once among the first keys and
   * again after `splitting`).
   */
  const TableKeys: seq<Key> := [
    UploadTab,
    UrlTab,
    RecordTab,
    SelectLanguage,
    DragAndDrop,
    SelectFile,
    Uploading,
    Transcribing,
    SupportedFormats,
    FullTranscription,
    Segments,
    CopyToClipboard,
    DownloadAsTxt,
    DownloadAsSrt,
    UrlUploadSoon,
    RecordingSoon,
    PleaseSelectLanguage,
    ErrorTitle,
    FileTooLarge,
    MaxFileSize,
    ProcessingLargeFiles,
    Analyzing,
    Compressing,
    Splitting,
    Transcribing,
    Processing,
    MergingResults
  ]

  /** The English texts, one per entry of `TableKeys`. */
  const EnglishValues: seq<string> := [
    "Upload",
    "URL",
    "Record",
    "Select language",
    "Drag & drop or click to upload audio file",
    "Select File",
    "Uploading...",
    "Transcribing...",
    "Supports MP3, WAV, M4A, WEBM, MP4, MPGA, WAV, MOV, AVI",
    "Full Transcription",
    "Segments",
    "Copy to clipboard",
    "Download as TXT",
    "Download as SRT",
    "URL upload coming soon",
    "Recording feature coming soon",
    "Please select a language first",
    "Error",
    "File size exceeds 25MB limit. Please upload a smaller file.",
    "Maximum file size: 25MB",
    "Large files will be automatically split for processing",
    "Analyzing file...",
    "Compressing audio...",
    "Splitting into chunks...",
    "Transcribing audio...",
    "Processing chunk",
    "Merging results..."
  ]


  /** The Hebrew texts, one per entry of `TableKeys`. */
  const HebrewValues: seq<string> := [
    "העלאה",
    "קישור",
    "הקלטה",
    "בחר שפה",
    "גרור ושחרר או לחץ להעלאת קובץ שמע",
    "בחר קובץ",
    "מעלה...",
    "מתמלל...",
    "תומך ב-MP3, WAV, M4A, WEBM, MP4, MPGA, WAV, MOV, AVI",
    "תמלול מלא",
    "מקטעים",
    "העתק ללוח",
    "הורד כ-TXT",
    "הורד כ-SRT",
    "העלאה מקישור תהיה זמינה בקרוב",
    "הקלטה תהיה זמינה בקרוב",
    "אנא בחר שפה תחילה",
    "שגיאה",
    "גודל הקובץ עולה על 25MB. אנא העלה קובץ קטן יותר.",
    "גודל קובץ מקסימלי: 25MB",
    "קבצים גדולים יחולקו אוטומטית לעיבוד",
    "מנתח קובץ...",
    "דוחס שמע...",
    "מפצל לחלקים...",
    "מתמלל שמע...",
    "מעבד חלק",
    "ממזג תוצאות..."
  ]


  /** The Arabic texts, one per entry of `TableKeys`. */
  const ArabicValues: seq<string> := [
    "تحميل",
    "رابط",
    "تسجيل",
    "اختر اللغة",
    "اسحب وأفلت أو انقر لتحميل ملف صوتي",
    "اختر ملف",
    "جاري التحميل...",
    "جاري النسخ...",
    "يدعم MP3, WAV, M4A, WEBM, MP4, MPGA, WAV, MOV, AVI",
    "النص الكامل",
    "المقاطع",
    "نسخ إلى الحافظة",
    "تنزيل كملف TXT",
    "تنزيل كملف SRT",
    "التحميل عبر الرابط قريباً",
    "ميزة التسجيل قريباً",
    "الرجاء اختيار اللغة أولاً",
    "خطأ",
    "حجم الملف يتجاوز 25 ميجابايت. يرجى تحميل ملف أصغر.",
    "الحد الأقصى لحجم الملف: 25 ميجابايت",
    "سيتم تقسيم الملفات الكبيرة تلقائياً للمعالجة",
    "تحليل الملف...",
    "ضغط الصوت...",
    "تقسيم إلى أجزاء...",
    "نسخ الصوت...",
    "معالجة الجزء",
    "دمج النتائج..."
  ]

  /** A table as the entries of its object literal: key and text, in written order. */
  function Zip(keys: seq<Key>, values: seq<string>): (entries: seq<(Key, string)>)
    requires |keys| == |values|
    ensures |entries| == |keys|
  {
    seq(|keys|, i requires 0 <= i < |keys| => (keys[i], values[i]))
  }

  const EnglishEntries: seq<(Key, string)> := Zip(TableKeys, EnglishValues)
  const HebrewEntries: seq<(Key, string)> := Zip(TableKeys, HebrewValues)
  const ArabicEntries: seq<(Key, string)> := Zip(TableKeys, ArabicValues)


  /** The value an object literal with these entries gives `key`: the last one written. */
  function Lookup(entries: seq<(Key, string)>, key: Key): (r: Option<string>)
    ensures r.None? <==> forall i | 0 <= i < |entries| :: entries[i].0 != key
    ensures r.Some? ==> exists i | 0 <= i < |entries| :: entries[i] == (key, r.value)
  {
    if |entries| == 0 then None
    else if entries[|entries| - 1].0 == key then Some(entries[|entries| - 1].1)
    else Lookup(entries[..|entries| - 1], key)
  }

  /** `translations[language]`: undefined for a language without a table. */
  function Table(language: string): Option<seq<(Key, string)>> {
    if language == "en" then Some(EnglishEntries)
    else if language == "he" then Some(HebrewEntries)
    else if language == "ar" then Some(ArabicEntries)
    else None
  }

  /**
   * `translations[language]?.[key] || translations["en"][key]`: the value in
   * the language's table unless that is missing or empty, else the English one.
   */
  function GetTranslation(language: string, key: Key): Option<string> {
    var local := match Table(language) case None => None case Some(t) => Lookup(t, key);
    if local.Some? && local.value != "" then local else Lookup(EnglishEntries, key)
  }

  /**
   * The `t` helper of the display components: `getTranslation(language ||
   * "en", key)`, where `key` may name no entry at all (None), which reads as
   * `undefined`.
   */
  function Translate(language: string, key: Option<Key>): Option<string> {
    match key
    case None => None
    case Some(k) => GetTranslation(if language == "" then "en" else language, k)
  }

  // ------------------------------------------------------------- properties

  /** The value of the last entry that writes `key`. */
  lemma {:induction false} LastWritten(entries: seq<(Key, string)>, key: Key, j: nat)
    requires j < |entries| && entries[j].0 == key
    requires forall i | j < i < |entries| :: entries[i].0 != key
    ensures Lookup(entries, key) == Some(entries[j].1)
    decreases |entries|
  {
    if j < |entries| - 1 {
      LastWritten(entries[..|entries| - 1], key, j);
    }
  }

  /** The key written twice keeps its second value: the English table. */
  lemma EnglishTranscribing()
    ensures Lookup(EnglishEntries, Transcribing) == Some("Transcribing audio...")
  {
    SecondTranscribing(EnglishValues);
  }

  /** The key written twice keeps its second value: the Hebrew table. */
  lemma HebrewTranscribing()
    ensures Lookup(HebrewEntries, Transcribing) == Some("מתמלל שמע...")
  {
    SecondTranscribing(HebrewValues);
  }

  /** The key written twice keeps its second value: the Arabic table. */
  lemma ArabicTranscribing()
    ensures Lookup(ArabicEntries, Transcribing) == Some("نسخ الصوت...")
  {
    SecondTranscribing(ArabicValues);
  }

  /** In any table written in the key order, `transcribing` reads its second entry, at index 24. */
  lemma SecondTranscribing(values: seq<string>)
    requires |values| == |TableKeys|
    ensures Lookup(Zip(TableKeys, values), Transcribing) == Some(values[24])
  {
    assert TableKeys[24] == Transcribing && TableKeys[25] != Transcribing && TableKeys[26] != Transcribing;
    LastWritten(Zip(TableKeys, values), Transcribing, 24);
  }

  /** Where each key is first written. */
  function KeyIndex(key: Key): nat {
    match key
    case UploadTab => 0
    case UrlTab => 1
    case RecordTab => 2
    case SelectLanguage => 3
    case DragAndDrop => 4
    case SelectFile => 5
    case Uploading => 6
    case Transcribing => 7
    case SupportedFormats => 8
    case FullTranscription => 9
    case Segments => 10
    case CopyToClipboard => 11
    case DownloadAsTxt => 12
    case DownloadAsSrt => 13
    case UrlUploadSoon => 14
    case RecordingSoon => 15
    case PleaseSelectLanguage => 16
    case ErrorTitle => 17
    case FileTooLarge => 18
    case MaxFileSize => 19
    case ProcessingLargeFiles => 20
    case Analyzing => 21
    case Compressing => 22
    case Splitting => 23
    case Processing => 25
    case MergingResults => 26
  }

  predicate NonEmptyValues(entries: seq<(Key, string)>) {
    forall i | 0 <= i < |entries| :: entries[i].1 != ""
  }

  /** A table that writes `key` somewhere, and only non-empty values, gives `key` a non-empty value. */
  lemma FoundNonEmpty(entries: seq<(Key, string)>, key: Key, i: nat)
    requires i < |entries| && entries[i].0 == key && NonEmptyValues(entries)
    ensures Lookup(entries, key).Some? && Lookup(entries, key).value != ""
  {
  }

  /** Every key is written in the tables. */
  lemma KeyWritten(key: Key)
    ensures KeyIndex(key) < |TableKeys| && TableKeys[KeyIndex(key)] == key
  {
  }

  lemma NonEmptyTexts(values: seq<string>)
    requires |values| == |TableKeys|
    requires forall i | 0 <= i < |values| :: |values[i]| > 0
    ensures NonEmptyValues(Zip(TableKeys, values))
  {
  }

  lemma EnglishNonEmpty()
    ensures NonEmptyValues(EnglishEntries)
  {
    NonEmptyTexts(EnglishValues);
  }

  lemma HebrewNonEmpty()
    ensures NonEmptyValues(HebrewEntries)
  {
    NonEmptyTexts(HebrewValues);
  }

  lemma ArabicNonEmpty()
    ensures NonEmptyValues(ArabicEntries)
  {
    NonEmptyTexts(ArabicValues);
  }

  /** A table built from the shared keys and non-empty values gives `key` a non-empty value. */
  lemma ZippedComplete(values: seq<string>, key: Key)
    requires |values| == |TableKeys| && NonEmptyValues(Zip(TableKeys, values))
    ensures Lookup(Zip(TableKeys, values), key).Some? && Lookup(Zip(TableKeys, values), key).value != ""
  {
    KeyWritten(key);
    FoundNonEmpty(Zip(TableKeys, values), key, KeyIndex(key));
  }

  /** Every table gives every key a non-empty value. */
  lemma TablesComplete(key: Key)
    ensures Lookup(EnglishEntries, key).Some? && Lookup(EnglishEntries, key).value != ""
    ensures Lookup(HebrewEntries, key).Some? && Lookup(HebrewEntries, key).value != ""
    ensures Lookup(ArabicEntries, key).Some? && Lookup(ArabicEntries, key).value != ""
  {
    EnglishNonEmpty();
    ZippedComplete(EnglishValues, key);
    HebrewNonEmpty();
    ZippedComplete(HebrewValues, key);
    ArabicNonEmpty();
    ZippedComplete(ArabicValues, key);
  }

  /**
   * A key's text is its value in the table of the language, or the English
   * value for any other language, and it is never empty.
   */
  lemma GetTranslationFallsBack(language: string, key: Key)
    ensures Table(language).Some? ==> GetTranslation(language, key) == Lookup(Table(language).value, key)
    ensures Table(language).None? ==> GetTranslation(language, key) == Lookup(EnglishEntries, key)
    ensures GetTranslation(language, key).Some? && GetTranslation(language, key).value != ""
  {
    TablesComplete(key);
    if language == "en" {
      assert Table(language) == Some(EnglishEntries);
    } else if language == "he" {
      assert Table(language) == Some(HebrewEntries);
    } else if language == "ar" {
      assert Table(language) == Some(ArabicEntries);
    } else {
      assert Table(language) == None;
    }
  }

  /** The languages with a table are exactly English, Hebrew and Arabic. */
  lemma TableLanguages(language: string)
    ensures Table(language).Some? <==> language == "en" || language == "he" || language == "ar"
  {
  }
}
