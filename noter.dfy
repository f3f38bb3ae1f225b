/** Reading notes (lib/noter.py): records of book, chapter, subject and
    free text, kept in the record store under the decimal text of their
    creation time, listed and edited through a menu ordered by that time. */
module Noter {
  import opened Common
  import opened Decimal
  import opened Sorting
  import opened RecordStore

  datatype Note = Note(book: string, chapter: int, subject: string, content: string)

  /** A note before any field has been set. */
  const Blank := Note("", 0, "", "")

  /** A value a maker produces for a field. */
  datatype Value = Text(text: string) | Number(number: int)

  /** How a maker obtains its value: a fixed text, an integer or a line
      read after a prompt, or the text left in the editor. */
  datatype Source = Fixed(text: string) | ReadInt(prompt: string) | ReadStr(prompt: string) | EditContent

  datatype Maker = Maker(field: string, source: Source)

  /** The names of the note fields, in the order the makers fill them. */
  const NoteFields := ["book", "chapter", "subject", "content"]

  /** `make_makers`: the book name is fixed, the chapter and the subject
      are asked for, the content is written in the editor. */
  function StandardMakers(bookName: string): (makers: seq<Maker>)
    ensures |makers| == |NoteFields|
    ensures forall i :: 0 <= i < |makers| ==> makers[i].field == NoteFields[i]
    ensures makers[0].source == Fixed(bookName)
  {
    [Maker("book", Fixed(bookName)), Maker("chapter", ReadInt("Chapter: ")),
     Maker("subject", ReadStr("Subject: ")), Maker("content", EditContent)]
  }

  /** The value a maker produces, given the user's answer to each prompt
      and the text saved from the editor. */
  function Produce(source: Source, readInt: string -> int, readStr: string -> string, edited: string): (v: Value)
    ensures source.Fixed? ==> v == Text(source.text)
    ensures source.ReadInt? ==> v == Number(readInt(source.prompt))
    ensures source.ReadStr? ==> v == Text(readStr(source.prompt))
    ensures source.EditContent? ==> v == Text(edited)
  {
    match source
    case Fixed(t) => Text(t)
    case ReadInt(p) => Number(readInt(p))
    case ReadStr(p) => Text(readStr(p))
    case EditContent => Text(edited)
  }

  /** `setattr(ent, field, v)` on a note: the named field takes the value;
      a name or a kind of value the note has no slot for is dropped. */
  function SetField(n: Note, field: string, v: Value): (r: Note)
    ensures field == "book" && v.Text? ==> r == n.(book := v.text)
    ensures field == "chapter" && v.Number? ==> r == n.(chapter := v.number)
    ensures field == "subject" && v.Text? ==> r == n.(subject := v.text)
    ensures field == "content" && v.Text? ==> r == n.(content := v.text)
    ensures field !in NoteFields ==> r == n
  {
    match (field, v)
    case ("book", Text(t)) => n.(book := t)
    case ("chapter", Number(c)) => n.(chapter := c)
    case ("subject", Text(t)) => n.(subject := t)
    case ("content", Text(t)) => n.(content := t)
    case _ => n
  }

  /** The note after the makers have been applied in order. */
  function Filled(makers: seq<Maker>, readInt: string -> int, readStr: string -> string, edited: string): Note
  {
    if |makers| == 0 then Blank
    else
      var m := makers[|makers| - 1];
      SetField(Filled(makers[..|makers| - 1], readInt, readStr, edited), m.field, Produce(m.source, readInt, readStr, edited))
  }

  /** The standard makers give the book name, the answers to the two
      prompts and the edited text. */
  lemma {:induction false} StandardNote(bookName: string, readInt: string -> int, readStr: string -> string, edited: string)
    ensures Filled(StandardMakers(bookName), readInt, readStr, edited)
              == Note(bookName, readInt("Chapter: "), readStr("Subject: "), edited)
  {
    var ms := StandardMakers(bookName);
    assert ms[..0] == [];
    assert ms[..1][..0] == [];
    assert ms[..2][..1] == ms[..1];
    assert ms[..3][..2] == ms[..2];
    assert ms[..3] == ms[..|ms| - 1];
    assert Filled(ms[..1], readInt, readStr, edited) == Blank.(book := bookName);
    assert Filled(ms[..2], readInt, readStr, edited) == Blank.(book := bookName, chapter := readInt("Chapter: "));
    assert Filled(ms[..3], readInt, readStr, edited)
             == Blank.(book := bookName, chapter := readInt("Chapter: "), subject := readStr("Subject: "));
  }

  /** `sorted(cont.items(), key=lambda x: int(x[0]))`: the keys in
      ascending integer order (equal values keep the tree's string order);
      ValueError if some key is not an integer. */
  function NoteOrder(cont: map<string, Note>): (r: Result<seq<string>>)
    ensures r.Err? <==> exists k :: k in cont && ParseInt(k).None?
    ensures r.Err? ==> r.error == ValueError
    ensures r.Ok? ==> |r.value| == |cont| && forall k :: k in r.value <==> k in cont
    ensures r.Ok? ==> forall i, j :: 0 <= i < j < |r.value| ==>
                        ParseInt(r.value[i]).value <= ParseInt(r.value[j]).value
  {
    if exists k :: k in cont && ParseInt(k).None? then Err(ValueError)
    else
      var ks := SortKeys(cont.Keys, IntValue);
      SortedByValue(cont, ks);
      Ok(ks)
  }

  /** Keys sorted by their integer values, all of them integers, come in
      ascending numeric order. */
  lemma SortedByValue(cont: map<string, Note>, ks: seq<string>)
    requires forall k :: k in cont ==> ParseInt(k).Some?
    requires forall k :: k in ks ==> k in cont
    requires SortedBy(IntValue, ks)
    ensures forall i, j :: 0 <= i < j < |ks| ==> ParseInt(ks[i]).value <= ParseInt(ks[j]).value
  {
    forall i, j | 0 <= i < j < |ks|
      ensures ParseInt(ks[i]).value <= ParseInt(ks[j]).value
    {
      assert Before(IntValue, ks[i], ks[j]);
    }
  }

  /** Notes stored under creation times are listed oldest first. */
  lemma NotesByCreationTime(cont: map<string, Note>, i: int, j: int)
    requires forall k :: k in cont ==> k == IntToString(IntValue(k))
    ensures NoteOrder(cont).Ok?
    ensures 0 <= i < j < |cont| ==> IntValue(NoteOrder(cont).value[i]) < IntValue(NoteOrder(cont).value[j])
  {
    forall k | k in cont
      ensures ParseInt(k).Some?
    {
      ParseShowsInverse(IntValue(k));
    }
    if 0 <= i < j < |cont| {
      var ks := SortKeys(cont.Keys, IntValue);
      assert NoteOrder(cont) == Ok(ks);
      CreationTimesApart(ks[i], ks[j]);
    }
  }

  /** Two keys written as their own times, one before the other in the
      order `sort` uses, have different times: the earlier key has the
      smaller one. */
  lemma CreationTimesApart(a: string, b: string)
    requires a == IntToString(IntValue(a)) && b == IntToString(IntValue(b))
    requires Before(IntValue, a, b)
    ensures IntValue(a) < IntValue(b)
  {
    if IntValue(a) == IntValue(b) {
      BeforeIrreflexive(IntValue, a);
    }
  }

  /** A menu entry: the creation time as text, a newline, and at most the
      first 80 characters of the content. */
  function Preview(isotime: int -> string, key: string, n: Note): (text: string)
    ensures var head := isotime(IntValue(key)) + "\n";
            && |head| <= |text| && text[..|head|] == head
            && var rest := text[|head|..];
            && |rest| == (if |n.content| < 80 then |n.content| else 80)
            && rest == n.content[..|rest|]
  {
    var shown := if |n.content| < 80 then n.content else n.content[..80];
    isotime(IntValue(key)) + "\n" + shown
  }

  /** The menu `list` and `edit` show: one preview per note, in note order. */
  function Menu(isotime: int -> string, cont: map<string, Note>, ks: seq<string>): (lines: seq<string>)
    requires forall k :: k in ks ==> k in cont
    ensures |lines| == |ks|
    ensures forall i :: 0 <= i < |ks| ==> lines[i] == Preview(isotime, ks[i], cont[ks[i]])
  {
    seq(|ks|, i requires 0 <= i < |ks| => Preview(isotime, ks[i], cont[ks[i]]))
  }

  /** `edit`'s changes to a note: the chapter answer defaults to the old
      chapter, an empty subject answer keeps the old subject, the content
      is what the editor left; the book is untouched. */
  function Edited(n: Note, chapter: Option<int>, subject: string, content: string): (r: Note)
    ensures r.book == n.book && r.content == content
    ensures r.chapter == if chapter.Some? then chapter.value else n.chapter
    ensures r.subject == if subject == "" then n.subject else subject
  {
    Note(n.book, if chapter.Some? then chapter.value else n.chapter, if subject == "" then n.subject else subject, content)
  }

  /** `notes[idx][0]`, the key of the note a menu pick addresses (the
      note `edit` changes and `list` shows): ValueError if the notes
      cannot be ordered, TypeError if nothing was picked (the pick cannot
      be unpacked), IndexError if the pick is outside the menu; a
      negative pick counts from the end, as Python's indexing does. */
  function PickedKey(cont: map<string, Note>, pick: Option<int>): (r: Result<string>)
    ensures var order := NoteOrder(cont);
            && (order.Err? ==> r == Err(ValueError))
            && (order.Ok? && pick.None? ==> r == Err(TypeError))
            && (order.Ok? && pick.Some? && !(-|order.value| <= pick.value < |order.value|) ==> r == Err(IndexError))
            && (r.Ok? <==> order.Ok? && pick.Some? && -|order.value| <= pick.value < |order.value|)
            && (r.Ok? && pick.value >= 0 ==> r.value == order.value[pick.value])
            && (r.Ok? && pick.value < 0 ==> r.value == order.value[|order.value| + pick.value])
            && (r.Ok? ==> r.value in cont)
  {
    var order := NoteOrder(cont);
    if order.Err? then Err(order.error)
    else if pick.None? then Err(TypeError)
    else if !(-|order.value| <= pick.value < |order.value|) then Err(IndexError)
    else if pick.value < 0 then Ok(order.value[|order.value| + pick.value])
    else Ok(order.value[pick.value])
  }

  /** The pick -1 addresses the newest note: the one whose key, an
      integer such as a creation time, is largest. */
  lemma LastPickIsNewest(cont: map<string, Note>)
    requires forall k :: k in cont ==> ParseInt(k).Some?
    requires |cont| > 0
    ensures PickedKey(cont, Some(-1)).Ok?
    ensures forall k :: k in cont ==> IntValue(k) <= IntValue(PickedKey(cont, Some(-1)).value)
  {
    var ks := NoteOrder(cont).value;
    assert PickedKey(cont, Some(-1)) == Ok(ks[|ks| - 1]);
    AscendingToLast(cont.Keys, ks);
  }

  /** In keys of ascending integer value, the last has the largest. */
  lemma AscendingToLast(keys: set<string>, ks: seq<string>)
    requires |ks| > 0 && forall k :: k in keys ==> k in ks
    requires forall a :: 0 <= a < |ks| ==> ParseInt(ks[a]).Some?
    requires forall a, b :: 0 <= a < b < |ks| ==> ParseInt(ks[a]).value <= ParseInt(ks[b]).value
    ensures forall k :: k in keys ==> IntValue(k) <= IntValue(ks[|ks| - 1])
  {
    forall k | k in keys
      ensures IntValue(k) <= IntValue(ks[|ks| - 1])
    {
      var i :| 0 <= i < |ks| && ks[i] == k;
      if i < |ks| - 1 {
        assert ParseInt(ks[i]).value <= ParseInt(ks[|ks| - 1]).value;
      }
    }
  }

  /** Accepting every default changes nothing but the content. */
  lemma EditDefaultsKeepNote(n: Note, content: string)
    ensures Edited(n, None, "", content) == n.(content := content)
    ensures Edited(n, None, "", n.content) == n
  {
  }

  /** What `edit` shows and leaves of the notes `cont`: the menu, and the
      notes after the edit or the error that stopped it. */
  function EditOf(isotime: int -> string, cont: map<string, Note>, pick: Option<int>, chapter: Option<int>,
                  subject: string, content: string): (seq<string>, Result<map<string, Note>>)
  {
    var order := NoteOrder(cont);
    var key := PickedKey(cont, pick);
    (if order.Ok? then Menu(isotime, cont, order.value) else [],
     if key.Err? then Err(key.error) else Ok(cont[key.value := Edited(cont[key.value], chapter, subject, content)]))
  }

  /** `edit` fails exactly when no note can be picked, and then with the
      error of the pick; otherwise it changes the picked note by the
      answers and keeps every other note. */
  lemma EditChangesPickedNote(isotime: int -> string, cont: map<string, Note>, pick: Option<int>,
                              chapter: Option<int>, subject: string, content: string)
    ensures var (shown, after) := EditOf(isotime, cont, pick, chapter, subject, content);
            var order := NoteOrder(cont);
            var key := PickedKey(cont, pick);
            && (order.Ok? ==> shown == Menu(isotime, cont, order.value))
            && (order.Err? ==> shown == [] && after == Err(ValueError))
            && (after.Err? <==> key.Err?)
            && (after.Err? ==> after.error == key.error)
            && (after.Ok? ==>
                  && after.value.Keys == cont.Keys
                  && after.value[key.value] == Edited(cont[key.value], chapter, subject, content)
                  && forall k :: k in cont && k != key.value ==> after.value[k] == cont[k])
  {
    var key := PickedKey(cont, pick);
    if key.Ok? {
      EditKeepsOtherNotes(cont, key.value, Edited(cont[key.value], chapter, subject, content));
    }
  }

  /** Saving under the picked key keeps the key set and every other note. */
  lemma EditKeepsOtherNotes(cont: map<string, Note>, key: string, n: Note)
    requires key in cont
    ensures cont[key := n].Keys == cont.Keys
    ensures forall k :: k in cont && k != key ==> cont[key := n][k] == cont[k]
  {
  }

  class Noter {
    const store: Recorder<Note>
    const bookName: string
    var makers: seq<Maker>

    /** `Noter(db_path, book_name)`: a record store on its default
        container. */
    constructor (dbPath: string, stored: map<string, map<string, Note>>, bookName: string)
      ensures fresh(store) && store.dbPath == dbPath && store.contName == DefaultContainer
      ensures store.root == stored && store.committed == stored && store.conn == None
      ensures this.bookName == bookName && makers == []
    {
      store := new Recorder(dbPath, stored, None);
      this.bookName := bookName;
      makers := [];
    }

    /** The notes as they are now (empty if the container is missing). */
    function Notes(): map<string, Note>
      reads store
    {
      ContainerOf(store.root, store.contName)
    }

    method MakeMakers()
      modifies this`makers
      ensures makers == StandardMakers(bookName)
    {
      makers := [Maker("book", Fixed(bookName)), Maker("chapter", ReadInt("Chapter: ")),
                 Maker("subject", ReadStr("Subject: ")), Maker("content", EditContent)];
    }

    /** The `setattr` loop of `add`. */
    static method Fill(makers: seq<Maker>, readInt: string -> int, readStr: string -> string, edited: string)
      returns (n: Note)
      ensures n == Filled(makers, readInt, readStr, edited)
    {
      n := Blank;
      for i := 0 to |makers|
        invariant n == Filled(makers[..i], readInt, readStr, edited)
      {
        assert makers[..i + 1][..i] == makers[..i];
        n := SetField(n, makers[i].field, Produce(makers[i].source, readInt, readStr, edited));
      }
      assert makers[..|makers|] == makers;
    }

    /** `add`: a new note from the prompts' answers and the editor,
        saved under the decimal text of the current time `now`. */
    method Add(now: int, readInt: string -> int, readStr: string -> string, edited: string)
      modifies this`makers, store
      ensures makers == StandardMakers(bookName)
      ensures store.ConnectionKept()
      ensures store.root == old(store.root)[store.contName :=
                old(Notes())[IntToString(now) := Note(bookName, readInt("Chapter: "), readStr("Subject: "), edited)]]
      ensures store.committed == store.root
    {
      MakeMakers();
      var n := Fill(makers, readInt, readStr, edited);
      StandardNote(bookName, readInt, readStr, edited);
      store.Save(IntToString(now), n, None);
    }

    /** `list`: shows the menu; `pick` is the menu's answer (None when
        nothing was picked). Yields the picked note, whose fields are
        then displayed. */
    method List(isotime: int -> string, pick: Option<int>) returns (menu: seq<string>, r: Result<Option<Note>>)
      modifies store
      ensures store.ConnectionKept() && store.ContainerReady(store.contName)
      ensures var order := NoteOrder(old(Notes()));
              && (order.Err? ==> menu == [] && r == Err(ValueError))
              && (order.Ok? ==> menu == Menu(isotime, old(Notes()), order.value))
              && (order.Ok? && pick.None? ==> r == Ok(None))
              && (order.Ok? && pick.Some? ==>
                    var key := PickedKey(old(Notes()), pick);
                    if key.Ok? then r == Ok(Some(old(Notes())[key.value])) else r == Err(IndexError))
    {
      var t := store.OpenDb(None);
      menu, r := Listing(isotime, store.root[t], pick);
    }

    /** The menu of the notes `cont` and the note picked from it, if any. */
    static method Listing(isotime: int -> string, cont: map<string, Note>, pick: Option<int>)
      returns (menu: seq<string>, r: Result<Option<Note>>)
      ensures var order := NoteOrder(cont);
              && (order.Err? ==> menu == [] && r == Err(ValueError))
              && (order.Ok? ==> menu == Menu(isotime, cont, order.value))
              && (order.Ok? && pick.None? ==> r == Ok(None))
              && (order.Ok? && pick.Some? ==>
                    var key := PickedKey(cont, pick);
                    if key.Ok? then r == Ok(Some(cont[key.value])) else r == Err(IndexError))
    {
      var order := NoteOrder(cont);
      if order.Err? {
        return [], Err(order.error);
      }
      var ks := order.value;
      menu := Menu(isotime, cont, ks);
      if pick.None? {
        return menu, Ok(None);
      }
      var key := PickedKey(cont, pick);
      if key.Err? {
        return menu, Err(IndexError);
      }
      r := Ok(Some(cont[key.value]));
    }

    /** `edit`: the picked note is changed by the answers (see Edited) and
        saved back under its own key (see PickedKey for the failures). */
    method Edit(isotime: int -> string, pick: Option<int>, chapter: Option<int>, subject: string, content: string)
      returns (menu: seq<string>, r: Outcome)
      modifies store
      ensures store.ConnectionKept()
      ensures var (shown, after) := EditOf(isotime, old(Notes()), pick, chapter, subject, content);
              && menu == shown
              && (after.Err? ==> r == Fail(after.error) && store.ContainerReady(store.contName))
              && (after.Ok? ==>
                    && r == Pass
                    && store.root == old(store.root)[store.contName := after.value]
                    && store.committed == store.root)
    {
      var t := store.OpenDb(None);
      ghost var live := store.root;
      var key, n;
      menu, key, n := EditPick(isotime, store.root[t], pick, chapter, subject, content);
      if key.Err? {
        return menu, Fail(key.error);
      }
      store.Save(key.value, n, None);
      UpdateTwice(old(store.root), t, live[t], live[t][key.value := n]);
      r := Pass;
    }

    /** The part of `edit` between its `opendb` and its `save`: the menu, the
        key of the picked note and the note as the answers change it. */
    static method EditPick(isotime: int -> string, cont: map<string, Note>, pick: Option<int>, chapter: Option<int>,
                           subject: string, content: string)
      returns (menu: seq<string>, key: Result<string>, n: Note)
      ensures menu == EditOf(isotime, cont, pick, chapter, subject, content).0
      ensures key == PickedKey(cont, pick)
      ensures key.Ok? ==> n == Edited(cont[key.value], chapter, subject, content)
    {
      var order := NoteOrder(cont);
      menu := if order.Ok? then Menu(isotime, cont, order.value) else [];
      key := PickedKey(cont, pick);
      n := if key.Ok? then Edited(cont[key.value], chapter, subject, content) else Blank;
    }

    /** `delete` is not implemented: it always fails its assertion. */
    method Delete() returns (r: Outcome)
      ensures r == Fail(AssertionError)
    {
      r := Fail(AssertionError);
    }
  }
}
