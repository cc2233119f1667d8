/** The relational schema of the application: one datatype per table row, the
    column defaults applied on insert, the keys and unique columns the store
    enforces, the foreign keys, and the cascade that deleting a user triggers.
    Creation and update timestamps are left out; the remaining timestamp
    columns hold an opaque `Instant`. */
module Schema {
  import opened Js
  import opened Seqs

  type Instant = int

  datatype Role = UserRole | AdminRole

  datatype User = User(
    id: string,
    name: string,
    email: string,
    password: Option<string>,
    role: Option<Role>,
    emailVerified: Option<Instant>,
    image: Option<string>)

  datatype Account = Account(
    userId: string,
    kind: string,
    provider: string,
    providerAccountId: string,
    refreshToken: Option<string>,
    accessToken: Option<string>,
    expiresAt: Option<int>,
    tokenType: Option<string>,
    scope: Option<string>,
    idToken: Option<string>,
    sessionState: Option<string>)

  datatype SessionRow = SessionRow(sessionToken: string, userId: string, expires: Instant)

  datatype VerificationToken = VerificationToken(identifier: string, token: string, expires: Instant)

  datatype Difficulty = Beginner | Intermediate | Advanced

  datatype Topic = Topic(
    id: int,
    name: string,
    description: Option<string>,
    category: string,
    gradeLevel: string,
    difficulty: Difficulty)

  datatype Character = Character(
    id: int,
    userId: string,
    name: string,
    imageUrl: string,
    avatarUrl: Option<string>,
    voiceId: Option<string>,
    customizations: Option<string>,
    isActive: Option<bool>)

  datatype Conversation = Conversation(id: int, userId: string, characterId: int, topicId: int, title: string)

  datatype MessageRole = UserMessage | AssistantMessage

  datatype Message = Message(id: int, conversationId: int, content: string, role: MessageRole, audioUrl: Option<string>)

  datatype Quiz = Quiz(id: int, topicId: int, title: string, description: Option<string>, difficulty: Difficulty)

  datatype QuizQuestion = QuizQuestion(
    id: int,
    quizId: int,
    question: string,
    options: string,
    correctAnswer: string,
    explanation: Option<string>)

  datatype UserProgress = UserProgress(
    id: int,
    userId: string,
    topicId: int,
    completedLessons: Option<int>,
    quizzesTaken: Option<int>,
    averageScore: Option<int>,
    lastActivity: Option<Instant>)

  /** The age-group column is a text column; its declared type is checked by the
      compiler only, so the store itself accepts any text (see `AgeGroupTyped`). */
  datatype StudentProfile = StudentProfile(
    id: int,
    userId: string,
    username: string,
    grade: Option<string>,
    ageGroup: Option<string>,
    school: Option<string>,
    avatarColor: Option<string>,
    isCompleted: Option<bool>)

  /** The three brackets the age-group column is declared to hold. */
  predicate ColumnAgeGroup(a: string) {
    a == "5-7" || a == "8-10" || a == "11-13"
  }

  /** A profile row whose age group fits the column's declared type. */
  predicate AgeGroupTyped(p: StudentProfile) {
    p.ageGroup.None? || ColumnAgeGroup(p.ageGroup.value)
  }

  // ----- Inserts and column defaults -----

  /** A column value an insert either supplies or leaves to the column default. */
  datatype Supplied<T> = Omitted | Given(value: T)

  function Column<T>(v: Supplied<T>, default: T): T {
    match v
    case Omitted => default
    case Given(x) => x
  }

  /** The values of an insert into the user table, nullable columns optional. */
  datatype UserInsert = UserInsert(
    id: string,
    name: string,
    email: string,
    password: Supplied<Option<string>>,
    role: Supplied<Option<Role>>,
    image: Supplied<Option<string>>)

  /** The row an insert into the user table stores. */
  function InsertedUser(v: UserInsert): (u: User)
    ensures v.role.Omitted? ==> u.role == Some(UserRole)
    ensures v.password.Omitted? ==> u.password.None?
    ensures u.id == v.id && u.name == v.name && u.email == v.email && u.emailVerified.None?
  {
    User(v.id, v.name, v.email, Column(v.password, None), Column(v.role, Some(UserRole)), None,
         Column(v.image, None))
  }

  /** The values of an insert into the student-profile table. */
  datatype ProfileInsert = ProfileInsert(
    userId: string,
    username: string,
    grade: Supplied<Option<string>>,
    ageGroup: Supplied<Option<string>>,
    school: Supplied<Option<string>>,
    avatarColor: Supplied<Option<string>>,
    isCompleted: Supplied<Option<bool>>)

  /** The row an insert into the student-profile table stores under serial id `id`. */
  function InsertedProfile(id: int, v: ProfileInsert): (p: StudentProfile)
    ensures v.isCompleted.Omitted? ==> p.isCompleted == Some(false)
    ensures v.school.Omitted? ==> p.school.None?
    ensures v.avatarColor.Omitted? ==> p.avatarColor.None?
    ensures p.id == id && p.userId == v.userId && p.username == v.username
  {
    StudentProfile(id, v.userId, v.username, Column(v.grade, None), Column(v.ageGroup, None),
                   Column(v.school, None), Column(v.avatarColor, None), Column(v.isCompleted, Some(false)))
  }

  // ----- Key columns -----

  function UserId(u: User): string { u.id }
  function UserEmail(u: User): string { u.email }
  function AccountKey(a: Account): (string, string) { (a.provider, a.providerAccountId) }
  function SessionKey(s: SessionRow): string { s.sessionToken }
  function TokenKey(t: VerificationToken): (string, string) { (t.identifier, t.token) }
  function TopicId(t: Topic): int { t.id }
  function CharacterId(c: Character): int { c.id }
  function ConversationId(c: Conversation): int { c.id }
  function MessageId(m: Message): int { m.id }
  function QuizId(q: Quiz): int { q.id }
  function QuestionId(q: QuizQuestion): int { q.id }
  function ProgressId(p: UserProgress): int { p.id }
  function ProfileId(p: StudentProfile): int { p.id }
  function ProfileUsername(p: StudentProfile): string { p.username }

  /** The whole store. */
  datatype Database = Database(
    users: seq<User>,
    accounts: seq<Account>,
    sessions: seq<SessionRow>,
    verificationTokens: seq<VerificationToken>,
    topics: seq<Topic>,
    characters: seq<Character>,
    conversations: seq<Conversation>,
    messages: seq<Message>,
    quizzes: seq<Quiz>,
    quizQuestions: seq<QuizQuestion>,
    progress: seq<UserProgress>,
    profiles: seq<StudentProfile>)

  /** Primary keys and unique columns: unique user ids and emails, one account
      per (provider, providerAccountId), unique profile usernames, and so on.
      The profile's userId is not unique: a user may own several profiles. */
  predicate KeysHold(db: Database) {
    && Unique(db.users, UserId)
    && Unique(db.users, UserEmail)
    && Unique(db.accounts, AccountKey)
    && Unique(db.sessions, SessionKey)
    && Unique(db.verificationTokens, TokenKey)
    && Unique(db.topics, TopicId)
    && Unique(db.characters, CharacterId)
    && Unique(db.conversations, ConversationId)
    && Unique(db.messages, MessageId)
    && Unique(db.quizzes, QuizId)
    && Unique(db.quizQuestions, QuestionId)
    && Unique(db.progress, ProgressId)
    && Unique(db.profiles, ProfileId)
    && Unique(db.profiles, ProfileUsername)
  }

  /** Every foreign key points at an existing row. */
  predicate ReferencesHold(db: Database) {
    && (forall a :: a in db.accounts ==> HasKey(db.users, UserId, a.userId))
    && (forall s :: s in db.sessions ==> HasKey(db.users, UserId, s.userId))
    && (forall c :: c in db.characters ==> HasKey(db.users, UserId, c.userId))
    && (forall c :: c in db.conversations ==>
          HasKey(db.users, UserId, c.userId)
          && HasKey(db.characters, CharacterId, c.characterId)
          && HasKey(db.topics, TopicId, c.topicId))
    && (forall m :: m in db.messages ==> HasKey(db.conversations, ConversationId, m.conversationId))
    && (forall q :: q in db.quizzes ==> HasKey(db.topics, TopicId, q.topicId))
    && (forall q :: q in db.quizQuestions ==> HasKey(db.quizzes, QuizId, q.quizId))
    && (forall p :: p in db.progress ==>
          HasKey(db.users, UserId, p.userId) && HasKey(db.topics, TopicId, p.topicId))
    && (forall p :: p in db.profiles ==> HasKey(db.users, UserId, p.userId))
  }

  predicate Valid(db: Database) {
    KeysHold(db) && ReferencesHold(db)
  }

  /** Deleting user `uid`, with every `onDelete: cascade` foreign key followed:
      the user's accounts, sessions, characters, conversations, progress and
      profiles go, so do conversations about a deleted character and messages of
      a deleted conversation. Topics, quizzes and their questions stay. */
  function DeleteUser(db: Database, uid: string): (db': Database)
    ensures db'.topics == db.topics && db'.quizzes == db.quizzes
    ensures db'.quizQuestions == db.quizQuestions && db'.verificationTokens == db.verificationTokens
  {
    var characters := Filter(db.characters, (c: Character) => c.userId != uid);
    var conversations := Filter(db.conversations, (c: Conversation) =>
      c.userId != uid && HasKey(characters, CharacterId, c.characterId));
    db.(
      users := Filter(db.users, (u: User) => u.id != uid),
      accounts := Filter(db.accounts, (a: Account) => a.userId != uid),
      sessions := Filter(db.sessions, (s: SessionRow) => s.userId != uid),
      characters := characters,
      conversations := conversations,
      messages := Filter(db.messages, (m: Message) => HasKey(conversations, ConversationId, m.conversationId)),
      progress := Filter(db.progress, (p: UserProgress) => p.userId != uid),
      profiles := Filter(db.profiles, (p: StudentProfile) => p.userId != uid))
  }

  /** After the cascade nothing refers to the deleted user, and the rows of
      other users that do not depend on a deleted row are all still there. */
  lemma DeleteUserRemovesEverything(db: Database, uid: string)
    ensures var d := DeleteUser(db, uid);
      && !HasKey(d.users, UserId, uid)
      && (forall a :: a in d.accounts ==> a.userId != uid)
      && (forall s :: s in d.sessions ==> s.userId != uid)
      && (forall c :: c in d.characters ==> c.userId != uid)
      && (forall c :: c in d.conversations ==> c.userId != uid)
      && (forall p :: p in d.progress ==> p.userId != uid)
      && (forall p :: p in d.profiles ==> p.userId != uid)
    ensures var d := DeleteUser(db, uid);
      && (forall u :: u in db.users && u.id != uid ==> u in d.users)
      && (forall a :: a in db.accounts && a.userId != uid ==> a in d.accounts)
      && (forall p :: p in db.profiles && p.userId != uid ==> p in d.profiles)
      && (forall p :: p in db.progress && p.userId != uid ==> p in d.progress)
      && (forall s :: s in db.sessions && s.userId != uid ==> s in d.sessions)
      && (forall c :: c in db.characters && c.userId != uid ==> c in d.characters)
    ensures var d := DeleteUser(db, uid);
      && (forall c :: c in db.conversations && c.userId != uid
            && (exists ch :: ch in db.characters && ch.id == c.characterId && ch.userId != uid)
            ==> c in d.conversations)
      && (forall m :: m in db.messages && (exists c :: c in d.conversations && c.id == m.conversationId)
            ==> m in d.messages)
  {
    var d := DeleteUser(db, uid);
    forall c | c in db.conversations && c.userId != uid
                 && (exists ch :: ch in db.characters && ch.id == c.characterId && ch.userId != uid)
      ensures c in d.conversations
    {
      var ch :| ch in db.characters && ch.id == c.characterId && ch.userId != uid;
      assert ch in d.characters;
    }
  }

  lemma HasKeyKept<T(!new), K>(s: seq<T>, p: T -> bool, key: T -> K, k: K)
    requires HasKey(s, key, k)
    requires forall x :: x in s && key(x) == k ==> p(x)
    ensures HasKey(Filter(s, p), key, k)
  {
    var x :| x in s && key(x) == k;
    assert x in Filter(s, p);
  }

  /** The cascade keeps every key and every foreign key intact. */
  lemma {:induction false} DeleteUserKeepsValid(db: Database, uid: string)
    requires Valid(db)
    ensures Valid(DeleteUser(db, uid))
  {
    var d := DeleteUser(db, uid);
    FilterKeepsUnique(db.users, (u: User) => u.id != uid, UserId);
    FilterKeepsUnique(db.users, (u: User) => u.id != uid, UserEmail);
    FilterKeepsUnique(db.accounts, (a: Account) => a.userId != uid, AccountKey);
    FilterKeepsUnique(db.sessions, (s: SessionRow) => s.userId != uid, SessionKey);
    var keepCharacter := (c: Character) => c.userId != uid;
    FilterKeepsUnique(db.characters, keepCharacter, CharacterId);
    var keepConversation := (c: Conversation) =>
      c.userId != uid && HasKey(d.characters, CharacterId, c.characterId);
    FilterKeepsUnique(db.conversations, keepConversation, ConversationId);
    var keepMessage := (m: Message) => HasKey(d.conversations, ConversationId, m.conversationId);
    FilterKeepsUnique(db.messages, keepMessage, MessageId);
    FilterKeepsUnique(db.progress, (p: UserProgress) => p.userId != uid, ProgressId);
    FilterKeepsUnique(db.profiles, (p: StudentProfile) => p.userId != uid, ProfileId);
    FilterKeepsUnique(db.profiles, (p: StudentProfile) => p.userId != uid, ProfileUsername);
    assert KeysHold(d);

    var keepUser := (u: User) => u.id != uid;
    forall k | k != uid && HasKey(db.users, UserId, k) ensures HasKey(d.users, UserId, k) {
      HasKeyKept(db.users, keepUser, UserId, k);
    }
    forall c | c in d.conversations
      ensures HasKey(d.users, UserId, c.userId)
      ensures HasKey(d.characters, CharacterId, c.characterId)
      ensures HasKey(d.topics, TopicId, c.topicId)
    {
      assert c in db.conversations && keepConversation(c);
    }
    forall m | m in d.messages ensures HasKey(d.conversations, ConversationId, m.conversationId) {
      assert keepMessage(m);
    }
    forall p | p in d.progress
      ensures HasKey(d.users, UserId, p.userId) && HasKey(d.topics, TopicId, p.topicId)
    {
      assert p in db.progress;
    }
    assert ReferencesHold(d);
  }
}
