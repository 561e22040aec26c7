/** Jobs as Redis hashes of strings. */
module JobCodec {
  import opened Options
  import opened Numerals

  /** Times are whole microseconds. */
  datatype TtsJob = TtsJob(
    id: string,
    status: string,
    progress: int,
    stage: string,
    error: Option<string>,
    text: string,
    language: string,
    voice: Option<string>,
    fmt: string,
    owner: Option<int>,
    userId: Option<int>,
    priority: int,
    tier: Option<string>,
    audioPath: Option<string>,
    createdAt: int,
    updatedAt: int,
    startedAt: Option<int>,
    finishedAt: Option<int>)

  /** The names of a hash's fields. */
  datatype Key =
    | Id | Status | Progress | Stage | Error | Text | Language | Voice | Fmt | Owner | UserId | Priority
    | Tier | AudioPath | CreatedAt | UpdatedAt | StartedAt | FinishedAt

  type Hash = map<Key, string>

  const QUEUED := "queued"

  // ----- field values --------------------------------------------------------------------------------

  function OrEmpty(s: Option<string>): string {
    match s case None => "" case Some(v) => v
  }

  function NonEmpty(s: string): Option<string> {
    if s == "" then None else Some(s)
  }

  function NumberOrEmpty(n: Option<int>, show: int -> string): string {
    match n case None => "" case Some(v) => show(v)
  }

  function OrZero(n: Option<int>): int {
    match n case None => 0 case Some(v) => v
  }

  function OrQueued(status: string): string {
    if status == "" then QUEUED else status
  }

  // ----- encoding and decoding -------------------------------------------------------------------------

  /** The text that `_encode` stores under `key`. */
  function FieldText(job: TtsJob, key: Key, num: Numbers): string {
    match key
    case Id => job.id
    case Status => job.status
    case Progress => num.printInt(job.progress)
    case Stage => job.stage
    case Error => OrEmpty(job.error)
    case Text => job.text
    case Language => job.language
    case Voice => OrEmpty(job.voice)
    case Fmt => job.fmt
    case Owner => NumberOrEmpty(job.owner, num.printInt)
    case UserId => NumberOrEmpty(job.userId, num.printInt)
    case Priority => num.printInt(job.priority)
    case Tier => OrEmpty(job.tier)
    case AudioPath => OrEmpty(job.audioPath)
    case CreatedAt => num.printMicros(job.createdAt)
    case UpdatedAt => num.printMicros(job.updatedAt)
    case StartedAt => NumberOrEmpty(job.startedAt, num.printMicros)
    case FinishedAt => NumberOrEmpty(job.finishedAt, num.printMicros)
  }

  function Encode(job: TtsJob): Hash {
    map key: Key | true :: FieldText(job, key, PYTHON)
  }

  function Default(key: Key): string {
    match key
    case Language => "vi"
    case Fmt => "mp3"
    case _ => ""
  }

  /** `raw.get(key, default)` */
  function Lookup(raw: Hash, key: Key): string {
    if key in raw then raw[key] else Default(key)
  }

  function Texts(raw: Hash): Key -> string {
    key => Lookup(raw, key)
  }

  /** The job that these field texts describe. */
  function Read(texts: Key -> string, num: Numbers): TtsJob {
    TtsJob(
      texts(Id),
      OrQueued(texts(Status)),
      OrZero(num.toInt(texts(Progress))),
      texts(Stage),
      NonEmpty(texts(Error)),
      texts(Text),
      texts(Language),
      NonEmpty(texts(Voice)),
      texts(Fmt),
      num.toInt(texts(Owner)),
      num.toInt(texts(UserId)),
      OrZero(num.toInt(texts(Priority))),
      NonEmpty(texts(Tier)),
      NonEmpty(texts(AudioPath)),
      OrZero(num.toMicros(texts(CreatedAt))),
      OrZero(num.toMicros(texts(UpdatedAt))),
      num.toMicros(texts(StartedAt)),
      num.toMicros(texts(FinishedAt)))
  }

  function Decode(raw: Hash): Option<TtsJob> {
    if Lookup(raw, Id) == "" then None else Some(Read(Texts(raw), PYTHON))
  }

  function DropEmpty(s: Option<string>): Option<string> {
    if s == Some("") then None else s
  }

  /** The job with its empty optional texts absent and its empty status queued. */
  function Norm(job: TtsJob): TtsJob {
    job.(status := OrQueued(job.status), error := DropEmpty(job.error), voice := DropEmpty(job.voice),
         tier := DropEmpty(job.tier), audioPath := DropEmpty(job.audioPath))
  }

  lemma TextsWritten(job: TtsJob, texts: Key -> string, num: Numbers)
    requires forall key :: texts(key) == FieldText(job, key, num)
    ensures texts(Id) == job.id && texts(Status) == job.status && texts(Stage) == job.stage
    ensures texts(Text) == job.text && texts(Language) == job.language && texts(Fmt) == job.fmt
    ensures NonEmpty(texts(Error)) == DropEmpty(job.error) && NonEmpty(texts(Voice)) == DropEmpty(job.voice)
    ensures NonEmpty(texts(Tier)) == DropEmpty(job.tier) && NonEmpty(texts(AudioPath)) == DropEmpty(job.audioPath)
  {
  }

  lemma IntsWritten(job: TtsJob, texts: Key -> string, num: Numbers)
    requires Reversible(num) && forall key :: texts(key) == FieldText(job, key, num)
    ensures num.toInt(texts(Progress)) == Some(job.progress) && num.toInt(texts(Priority)) == Some(job.priority)
    ensures num.toInt(texts(Owner)) == job.owner && num.toInt(texts(UserId)) == job.userId
  {
  }

  lemma TimesWritten(job: TtsJob, texts: Key -> string, num: Numbers)
    requires Reversible(num) && forall key :: texts(key) == FieldText(job, key, num)
    ensures num.toMicros(texts(CreatedAt)) == Some(job.createdAt)
    ensures num.toMicros(texts(UpdatedAt)) == Some(job.updatedAt)
    ensures num.toMicros(texts(StartedAt)) == job.startedAt && num.toMicros(texts(FinishedAt)) == job.finishedAt
  {
  }

  lemma ReadWritten(job: TtsJob, texts: Key -> string, num: Numbers)
    requires Reversible(num) && forall key :: texts(key) == FieldText(job, key, num)
    ensures Read(texts, num) == Norm(job)
  {
    TextsWritten(job, texts, num);
    IntsWritten(job, texts, num);
    TimesWritten(job, texts, num);
  }

  /** Decoding an encoded job gives the job, normalised; only a job without an id is lost. */
  lemma DecodeEncode(job: TtsJob)
    ensures Decode(Encode(job)) == if job.id == "" then None else Some(Norm(job))
  {
    var raw := Encode(job);
    forall key ensures Lookup(raw, key) == FieldText(job, key, PYTHON) {
      assert key in raw;
    }
    assert Lookup(raw, Id) == job.id;
    PythonIsReversible();
    ReadWritten(job, Texts(raw), PYTHON);
  }

  /** The round trip is exact precisely for jobs with an id and a status whose optional texts are
      either absent or non-empty. */
  lemma RoundTripExactIff(job: TtsJob)
    ensures Decode(Encode(job)) == Some(job) <==>
      job.id != "" && job.status != "" && job.error != Some("") && job.voice != Some("")
      && job.tier != Some("") && job.audioPath != Some("")
  {
    DecodeEncode(job);
  }

  /** What the readers make of the texts that stand in for missing fields. */
  lemma ReadDefaults(texts: Key -> string, num: Numbers, id: string)
    requires num.toInt("") == None && num.toMicros("") == None
    requires texts(Id) == id && texts(Language) == "vi" && texts(Fmt) == "mp3"
    requires forall key | key !in {Id, Language, Fmt} :: texts(key) == ""
    ensures Read(texts, num) == TtsJob(
      id, "queued", 0, "", None, "", "vi", None, "mp3", None, None, 0, None, None, 0, 0, None, None)
  {
  }

  lemma OnlyAnId(raw: Hash, id: string)
    requires raw == map[Id := id]
    ensures Texts(raw)(Id) == id && Texts(raw)(Language) == "vi" && Texts(raw)(Fmt) == "mp3"
    ensures forall key | key !in {Id, Language, Fmt} :: Texts(raw)(key) == ""
  {
  }

  /** What a hash does not say is taken as if the job had just been queued: a hash with nothing but an id is a
      queued job in Vietnamese for an mp3 file, with zero progress, priority and times, and no more. */
  lemma MissingFieldsDefault(raw: Hash, id: string)
    requires raw == map[Id := id] && id != ""
    ensures Decode(raw) == Some(TtsJob(
      id, "queued", 0, "", None, "", "vi", None, "mp3", None, None, 0, None, None, 0, 0, None, None))
  {
    OnlyAnId(raw, id);
    NothingParses();
    ReadDefaults(Texts(raw), PYTHON, id);
  }

  lemma NothingParses()
    ensures PYTHON.toInt("") == None && PYTHON.toMicros("") == None
  {
  }

  // ----- updating single fields --------------------------------------------------------------------------

  /** The value of one keyword argument of `update`; times are numbers of microseconds. */
  datatype Value = Nothing | Str(s: string) | Number(n: int)

  datatype Change = Change(key: Key, value: Value)

  predicate IsTime(key: Key) {
    key in {CreatedAt, UpdatedAt, StartedAt, FinishedAt}
  }

  /** The value has the type the field is declared with; the id is never updated, and neither is the
      time of the last update, which the in-memory store writes itself. */
  predicate WellTyped(c: Change) {
    match c.key
    case Id => false
    case UpdatedAt => false
    case Progress => c.value.Number?
    case Priority => c.value.Number?
    case CreatedAt => c.value.Number?
    case Owner => !c.value.Str?
    case UserId => !c.value.Str?
    case StartedAt => !c.value.Str?
    case FinishedAt => !c.value.Str?
    case Error => !c.value.Number?
    case Voice => !c.value.Number?
    case Tier => !c.value.Number?
    case AudioPath => !c.value.Number?
    case _ => c.value.Str?
  }

  /** What `RedisJobStore.update` writes for one argument. */
  function ValueText(c: Change, num: Numbers): string {
    match c.value
    case Nothing => ""
    case Str(s) => s
    case Number(n) => if IsTime(c.key) then num.printMicros(n) else num.printInt(n)
  }

  function StrOf(v: Value): string {
    match v case Str(s) => s case _ => ""
  }

  function MaybeStr(v: Value): Option<string> {
    match v case Str(s) => Some(s) case _ => None
  }

  function NumberOf(v: Value): int {
    match v case Number(n) => n case _ => 0
  }

  function MaybeNumber(v: Value): Option<int> {
    match v case Number(n) => Some(n) case _ => None
  }

  /** `setattr(job, name, value)` */
  function SetField(job: TtsJob, c: Change): TtsJob {
    match c.key
    case Id => job
    case Status => job.(status := StrOf(c.value))
    case Progress => job.(progress := NumberOf(c.value))
    case Stage => job.(stage := StrOf(c.value))
    case Error => job.(error := MaybeStr(c.value))
    case Text => job.(text := StrOf(c.value))
    case Language => job.(language := StrOf(c.value))
    case Voice => job.(voice := MaybeStr(c.value))
    case Fmt => job.(fmt := StrOf(c.value))
    case Owner => job.(owner := MaybeNumber(c.value))
    case UserId => job.(userId := MaybeNumber(c.value))
    case Priority => job.(priority := NumberOf(c.value))
    case Tier => job.(tier := MaybeStr(c.value))
    case AudioPath => job.(audioPath := MaybeStr(c.value))
    case CreatedAt => job.(createdAt := NumberOf(c.value))
    case UpdatedAt => job.(updatedAt := NumberOf(c.value))
    case StartedAt => job.(startedAt := MaybeNumber(c.value))
    case FinishedAt => job.(finishedAt := MaybeNumber(c.value))
  }

  function SetFields(job: TtsJob, changes: seq<Change>): TtsJob
    decreases changes
  {
    if changes == [] then job else SetFields(SetField(job, changes[0]), changes[1..])
  }

  /** `HSET` of the encoded arguments. */
  function WriteFields(raw: Hash, changes: seq<Change>): Hash
    decreases changes
  {
    if changes == [] then raw
    else WriteFields(raw[changes[0].key := ValueText(changes[0], PYTHON)], changes[1..])
  }

  // ----- jobs seen field by field ------------------------------------------------------------------------

  function FromMaybeStr(s: Option<string>): Value {
    match s case None => Nothing case Some(v) => Str(v)
  }

  function FromMaybeNumber(n: Option<int>): Value {
    match n case None => Nothing case Some(v) => Number(v)
  }

  /** `getattr(job, name)` */
  function GetField(job: TtsJob, key: Key): Value {
    match key
    case Id => Str(job.id)
    case Status => Str(job.status)
    case Progress => Number(job.progress)
    case Stage => Str(job.stage)
    case Error => FromMaybeStr(job.error)
    case Text => Str(job.text)
    case Language => Str(job.language)
    case Voice => FromMaybeStr(job.voice)
    case Fmt => Str(job.fmt)
    case Owner => FromMaybeNumber(job.owner)
    case UserId => FromMaybeNumber(job.userId)
    case Priority => Number(job.priority)
    case Tier => FromMaybeStr(job.tier)
    case AudioPath => FromMaybeStr(job.audioPath)
    case CreatedAt => Number(job.createdAt)
    case UpdatedAt => Number(job.updatedAt)
    case StartedAt => FromMaybeNumber(job.startedAt)
    case FinishedAt => FromMaybeNumber(job.finishedAt)
  }

  datatype Kind = Plain | StatusText | MaybeText | Whole | MaybeWhole | Time | MaybeTime

  function KindOf(key: Key): Kind {
    match key
    case Status => StatusText
    case Error => MaybeText
    case Voice => MaybeText
    case Tier => MaybeText
    case AudioPath => MaybeText
    case Progress => Whole
    case Priority => Whole
    case Owner => MaybeWhole
    case UserId => MaybeWhole
    case CreatedAt => Time
    case UpdatedAt => Time
    case StartedAt => MaybeTime
    case FinishedAt => MaybeTime
    case _ => Plain
  }

  /** The field that decoding makes of a text. */
  function ReadValue(kind: Kind, text: string, num: Numbers): Value {
    match kind
    case Plain => Str(text)
    case StatusText => Str(OrQueued(text))
    case MaybeText => FromMaybeStr(NonEmpty(text))
    case Whole => Number(OrZero(num.toInt(text)))
    case MaybeWhole => FromMaybeNumber(num.toInt(text))
    case Time => Number(OrZero(num.toMicros(text)))
    case MaybeTime => FromMaybeNumber(num.toMicros(text))
  }

  function NormValue(kind: Kind, value: Value): Value {
    match kind
    case StatusText => Str(OrQueued(StrOf(value)))
    case MaybeText => if value == Str("") then Nothing else value
    case _ => value
  }

  lemma ReadsField(texts: Key -> string, num: Numbers, key: Key)
    ensures GetField(Read(texts, num), key) == ReadValue(KindOf(key), texts(key), num)
  {
  }

  lemma NormsField(job: TtsJob, key: Key)
    ensures GetField(Norm(job), key) == NormValue(KindOf(key), GetField(job, key))
  {
  }

  lemma SetsField(job: TtsJob, c: Change)
    requires WellTyped(c)
    ensures GetField(SetField(job, c), c.key) == c.value
  {
  }

  lemma KeepsField(job: TtsJob, c: Change, key: Key)
    requires key != c.key
    ensures GetField(SetField(job, c), key) == GetField(job, key)
  {
  }

  lemma SameFields(a: TtsJob, b: TtsJob)
    requires forall key :: GetField(a, key) == GetField(b, key)
    ensures a == b
  {
    SameTexts(a, b);
    SameNumbers(a, b);
    SameTimes(a, b);
  }

  lemma SameTexts(a: TtsJob, b: TtsJob)
    requires forall key :: GetField(a, key) == GetField(b, key)
    ensures a.id == b.id && a.status == b.status && a.stage == b.stage && a.text == b.text
    ensures a.language == b.language && a.fmt == b.fmt
    ensures a.error == b.error && a.voice == b.voice && a.tier == b.tier && a.audioPath == b.audioPath
  {
    assert GetField(a, Id) == GetField(b, Id) && GetField(a, Status) == GetField(b, Status);
    assert GetField(a, Stage) == GetField(b, Stage) && GetField(a, Text) == GetField(b, Text);
    assert GetField(a, Language) == GetField(b, Language) && GetField(a, Fmt) == GetField(b, Fmt);
    assert GetField(a, Error) == GetField(b, Error) && GetField(a, Voice) == GetField(b, Voice);
    assert GetField(a, Tier) == GetField(b, Tier) && GetField(a, AudioPath) == GetField(b, AudioPath);
  }

  lemma SameNumbers(a: TtsJob, b: TtsJob)
    requires forall key :: GetField(a, key) == GetField(b, key)
    ensures a.progress == b.progress && a.priority == b.priority && a.owner == b.owner && a.userId == b.userId
  {
    assert GetField(a, Progress) == GetField(b, Progress) && GetField(a, Priority) == GetField(b, Priority);
    assert GetField(a, Owner) == GetField(b, Owner) && GetField(a, UserId) == GetField(b, UserId);
  }

  lemma SameTimes(a: TtsJob, b: TtsJob)
    requires forall key :: GetField(a, key) == GetField(b, key)
    ensures a.createdAt == b.createdAt && a.updatedAt == b.updatedAt
    ensures a.startedAt == b.startedAt && a.finishedAt == b.finishedAt
  {
    assert GetField(a, CreatedAt) == GetField(b, CreatedAt) && GetField(a, UpdatedAt) == GetField(b, UpdatedAt);
    assert GetField(a, StartedAt) == GetField(b, StartedAt) && GetField(a, FinishedAt) == GetField(b, FinishedAt);
  }

  /** A value of the right type for its kind of field. */
  predicate HasKind(kind: Kind, value: Value) {
    match kind
    case Plain => value.Str?
    case StatusText => value.Str?
    case MaybeText => !value.Number?
    case Whole => value.Number?
    case MaybeWhole => !value.Str?
    case Time => value.Number?
    case MaybeTime => !value.Str?
  }

  lemma ReadsBack(kind: Kind, c: Change, num: Numbers)
    requires Reversible(num) && HasKind(kind, c.value) && IsTime(c.key) == (kind == Time || kind == MaybeTime)
    ensures ReadValue(kind, ValueText(c, num), num) == NormValue(kind, c.value)
  {
  }

  lemma ReadIsNormal(kind: Kind, text: string, num: Numbers)
    ensures NormValue(kind, ReadValue(kind, text, num)) == ReadValue(kind, text, num)
  {
  }

  lemma TypedKind(c: Change)
    requires WellTyped(c)
    ensures HasKind(KindOf(c.key), c.value)
    ensures IsTime(c.key) == (KindOf(c.key) == Time || KindOf(c.key) == MaybeTime)
  {
  }

  /** `after` differs from `before` in the one field that `c` writes. */
  ghost predicate Written(before: Key -> string, after: Key -> string, c: Change, num: Numbers) {
    && after(c.key) == ValueText(c, num)
    && forall key | key != c.key :: after(key) == before(key)
  }

  lemma WriteFieldAt(before: Key -> string, after: Key -> string, c: Change, num: Numbers, key: Key)
    requires Written(before, after, c, num) && WellTyped(c) && Reversible(num)
    ensures GetField(Read(after, num), key) == GetField(Norm(SetField(Read(before, num), c)), key)
  {
    var job := Read(before, num);
    ReadsField(after, num, key);
    ReadsField(before, num, key);
    NormsField(SetField(job, c), key);
    if key == c.key {
      SetsField(job, c);
      TypedKind(c);
      ReadsBack(KindOf(key), c, num);
    } else {
      KeepsField(job, c, key);
      ReadIsNormal(KindOf(key), before(key), num);
    }
  }

  lemma WriteField(before: Key -> string, after: Key -> string, c: Change, num: Numbers)
    requires Written(before, after, c, num) && WellTyped(c) && Reversible(num)
    ensures Read(after, num) == Norm(SetField(Read(before, num), c))
  {
    forall key ensures GetField(Read(after, num), key) == GetField(Norm(SetField(Read(before, num), c)), key) {
      WriteFieldAt(before, after, c, num, key);
    }
    SameFields(Read(after, num), Norm(SetField(Read(before, num), c)));
  }

  lemma WritesOne(raw: Hash, c: Change)
    requires c.key != Id
    ensures Written(Texts(raw), Texts(raw[c.key := ValueText(c, PYTHON)]), c, PYTHON)
    ensures Lookup(raw[c.key := ValueText(c, PYTHON)], Id) == Lookup(raw, Id)
  {
  }

  /** Writing one field of the hash is setting one field of the decoded job. */
  lemma UpdateCommutes(raw: Hash, c: Change)
    requires WellTyped(c) && Decode(raw).Some?
    ensures Decode(raw[c.key := ValueText(c, PYTHON)]) == Some(Norm(SetField(Decode(raw).value, c)))
  {
    PythonIsReversible();
    WritesOne(raw, c);
    WriteField(Texts(raw), Texts(raw[c.key := ValueText(c, PYTHON)]), c, PYTHON);
  }

  lemma NormSetsAt(job: TtsJob, c: Change, key: Key)
    requires WellTyped(c)
    ensures GetField(Norm(SetField(Norm(job), c)), key) == GetField(Norm(SetField(job, c)), key)
  {
    NormsField(SetField(Norm(job), c), key);
    NormsField(SetField(job, c), key);
    NormsField(job, key);
    if key == c.key {
      SetsField(job, c);
      SetsField(Norm(job), c);
    } else {
      KeepsField(job, c, key);
      KeepsField(Norm(job), c, key);
    }
  }

  lemma NormSets(job: TtsJob, c: Change)
    requires WellTyped(c)
    ensures Norm(SetField(Norm(job), c)) == Norm(SetField(job, c))
  {
    forall key ensures GetField(Norm(SetField(Norm(job), c)), key) == GetField(Norm(SetField(job, c)), key) {
      NormSetsAt(job, c, key);
    }
    SameFields(Norm(SetField(Norm(job), c)), Norm(SetField(job, c)));
  }

  lemma {:induction false} NormSetsAll(job: TtsJob, changes: seq<Change>)
    requires forall c | c in changes :: WellTyped(c)
    ensures Norm(SetFields(Norm(job), changes)) == Norm(SetFields(job, changes))
    decreases changes
  {
    if changes != [] {
      NormSetsAll(SetField(Norm(job), changes[0]), changes[1..]);
      NormSetsAll(SetField(job, changes[0]), changes[1..]);
      NormSets(job, changes[0]);
    }
  }

  /** So does writing any number of them, whatever the hash. */
  lemma {:induction false} UpdatesCommute(raw: Hash, changes: seq<Change>)
    requires (forall c | c in changes :: WellTyped(c)) && Decode(raw).Some?
    ensures Decode(WriteFields(raw, changes)).Some?
    ensures Norm(Decode(WriteFields(raw, changes)).value) == Norm(SetFields(Decode(raw).value, changes))
    decreases changes
  {
    if changes != [] {
      var c := changes[0];
      UpdateCommutes(raw, c);
      UpdatesCommute(raw[c.key := ValueText(c, PYTHON)], changes[1..]);
      NormSetsAll(SetField(Decode(raw).value, c), changes[1..]);
    }
  }
}
