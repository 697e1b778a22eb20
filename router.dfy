/** The category router: turns the free-text label returned by the classifier
    into one of the configured destination folders, defaulting to the inbox. */
module Router {
  import opened Text

  /** The folder messages are read from and the "leave it in place" answer. */
  const Inbox: string := "INBOX"

  /** The configured destination folders, in the order they are searched. */
  const Categories: seq<string> := [Inbox, "INBOX.Spam"]

  /** How a classifier label is compared: lower-cased, then trimmed. */
  function Normalize(category: string): (key: string) {
    TrimSpace(ToLower(category))
  }

  /** How a configured category is compared: trimmed, then lower-cased. */
  function CategoryKey(cat: string): (key: string) {
    ToLower(TrimSpace(cat))
  }

  /** The first category in `cats` whose key equals `key`, as written in
      `cats`; the inbox when there is none. */
  function FindFolder(cats: seq<string>, key: string): (folder: string) {
    if |cats| == 0 then Inbox
    else if CategoryKey(cats[0]) == key then cats[0]
    else FindFolder(cats[1..], key)
  }

  /** `mapCategoryToFolder`: the destination folder for a classifier label. */
  function MapCategoryToFolder(category: string): (folder: string) {
    FindFolder(Categories, Normalize(category))
  }

  /** The search answers with the inbox, or with an entry of the list whose
      key is the one searched for. */
  lemma {:induction false} FindFolderInList(cats: seq<string>, key: string)
    ensures FindFolder(cats, key) == Inbox ||
            (FindFolder(cats, key) in cats && CategoryKey(FindFolder(cats, key)) == key)
  {
    if |cats| > 0 && CategoryKey(cats[0]) != key {
      FindFolderInList(cats[1..], key);
    }
  }

  /** The router never invents a folder: its answer is a configured category
      (the inbox being one of them). */
  lemma RouteInCategories(category: string)
    ensures MapCategoryToFolder(category) in Categories
  {
    FindFolderInList(Categories, Normalize(category));
  }

  /** The search returns the first matching entry, exactly as configured. */
  lemma {:induction false} FirstMatchWins(cats: seq<string>, key: string, i: nat)
    requires i < |cats| && CategoryKey(cats[i]) == key
    requires forall j :: 0 <= j < i ==> CategoryKey(cats[j]) != key
    ensures FindFolder(cats, key) == cats[i]
  {
    if i > 0 {
      assert CategoryKey(cats[0]) != key;
      FirstMatchWins(cats[1..], key, i - 1);
    }
  }

  /** A key that matches no configured category falls back to the inbox. */
  lemma {:induction false} NoMatchFallsBack(cats: seq<string>, key: string)
    requires forall j :: 0 <= j < |cats| ==> CategoryKey(cats[j]) != key
    ensures FindFolder(cats, key) == Inbox
  {
    if |cats| > 0 {
      NoMatchFallsBack(cats[1..], key);
    }
  }

  /** The folder only depends on the label's normal form, and normalising a
      label that is already normal changes nothing. */
  lemma RouteIgnoresCaseAndSpace(category: string)
    ensures Normalize(Normalize(category)) == Normalize(category)
    ensures MapCategoryToFolder(Normalize(category)) == MapCategoryToFolder(category)
  {
    var l := ToLower(category);
    ToLowerIdempotent(category);
    TrimLowerCommute(l);
    TrimSpaceIdempotent(l);
  }

  lemma InboxKey()
    ensures CategoryKey(Categories[0]) == "inbox"
  {
    TrimmedIsFixed(Categories[0]);
  }

  lemma SpamKey()
    ensures CategoryKey(Categories[1]) == "inbox.spam"
  {
    TrimmedIsFixed(Categories[1]);
  }

  lemma SearchPair(first: string, second: string, key: string)
    ensures FindFolder([first, second], key) ==
      if CategoryKey(first) == key then first
      else if CategoryKey(second) == key then second
      else Inbox
  {
    assert [first, second][1..] == [second];
    assert [second][1..] == [];
    assert FindFolder([], key) == Inbox;
    assert FindFolder([second], key) == if CategoryKey(second) == key then second else Inbox;
  }

  /** Searching the configured categories: only the key "inbox.spam" finds a
      folder other than the inbox. */
  lemma SearchCategories(key: string)
    ensures FindFolder(Categories, key) == if key == "inbox.spam" then "INBOX.Spam" else Inbox
  {
    InboxKey();
    SpamKey();
    SearchPair(Categories[0], Categories[1], key);
  }

  /** With the configured categories, a label leads to a move exactly when its
      normal form is "inbox.spam", and the destination is then "INBOX.Spam". */
  lemma MovesOnlyToSpam(category: string)
    ensures MapCategoryToFolder(category) != Inbox <==> Normalize(category) == "inbox.spam"
    ensures MapCategoryToFolder(category) != Inbox ==> MapCategoryToFolder(category) == "INBOX.Spam"
  {
    SearchCategories(Normalize(category));
  }

  lemma LowerSpacedSpam()
    ensures ToLower("  inbox.spam \n") == "  inbox.spam \n"
  {
  }

  lemma TrimLeftSpacedSpam()
    ensures TrimLeft("  inbox.spam \n") == "inbox.spam \n"
  {
    var l := "  inbox.spam \n";
    assert IsSpace(l[0]) && IsSpace(l[1]);
    assert l[1..][1..] == l[2..] == "inbox.spam \n";
    assert !IsSpace(l[2]);
    assert TrimLeft(l[2..]) == l[2..];
  }

  lemma TrimRightSpacedSpam()
    ensures TrimRight("inbox.spam \n") == "inbox.spam"
  {
    var m := "inbox.spam \n";
    assert m[..|m| - 1][..|m| - 2] == m[..|m| - 2] == "inbox.spam";
    assert TrimRight(m[..|m| - 2]) == m[..|m| - 2];
  }

  lemma NormalizeSpacedSpam()
    ensures Normalize("  inbox.spam \n") == "inbox.spam"
  {
    LowerSpacedSpam();
    TrimLeftSpacedSpam();
    TrimRightSpacedSpam();
  }

  lemma NormalizeUpperSpam()
    ensures Normalize("INBOX.SPAM") == "inbox.spam"
  {
    assert ToLower("INBOX.SPAM") == "inbox.spam";
    TrimmedIsFixed("inbox.spam");
  }

  /** Case and surrounding white space are ignored, and the configured
      spelling is returned. */
  lemma SpamLabelsRoute()
    ensures MapCategoryToFolder("  inbox.spam \n") == "INBOX.Spam"
    ensures MapCategoryToFolder("INBOX.SPAM") == "INBOX.Spam"
  {
    NormalizeSpacedSpam();
    NormalizeUpperSpam();
    SearchCategories("inbox.spam");
  }

  lemma NormalizeOther()
    ensures Normalize("Other") == "other"
  {
    assert ToLower("Other") == "other";
    TrimmedIsFixed("other");
  }

  lemma NormalizeNewsletter()
    ensures Normalize("Newsletter") == "newsletter"
  {
    assert ToLower("Newsletter") == "newsletter";
    TrimmedIsFixed("newsletter");
  }

  lemma NormalizeShort(category: string)
    ensures |Normalize(category)| <= |category|
  {
    TrimLeftSpec(ToLower(category));
    TrimRightSpec(TrimLeft(ToLower(category)));
  }

  /** The classifier's fallback label for an empty response, "Other", and a
      label outside the configuration such as "Newsletter" are left in the
      inbox; so is a bare "Spam", whose normal form is not "inbox.spam". */
  lemma UnknownLabelsStayInInbox()
    ensures MapCategoryToFolder("Other") == Inbox
    ensures MapCategoryToFolder("Newsletter") == Inbox
    ensures MapCategoryToFolder("  Spam  ") == Inbox
  {
    NormalizeOther();
    NormalizeNewsletter();
    NormalizeShort("  Spam  ");
    SearchCategories("other");
    SearchCategories("newsletter");
    SearchCategories(Normalize("  Spam  "));
  }
}
