/** The input bar at the bottom of the home screen: a text field whose send
    button files the text as a note or a chat message depending on the
    active tab, and a clock button opening a menu of past conversations. */
module InputBar {
  import opened Wrappers
  import opened AppContext

  /** The entries of the history menu. */
  const HistoryItems: seq<string> := ["Yesterday", "last week", "last month"]

  /** The shared application state the input bar reads and writes. */
  datatype App = App(notes: seq<Note>, chat: Conversation, activeTab: ActiveTab)

  /** The input bar's own state. */
  datatype Input = Input(inputValue: string, showHistoryMenu: bool, selectedHistoryItem: Option<string>)

  datatype Screen = Screen(app: App, input: Input)

  const InitialInput: Input := Input("", false, None)

  /** Start-up state: the seed notes (not reproduced here), the seed chat,
      the chat tab active, an empty input and a closed menu. */
  function InitialScreen(seedNotes: seq<Note>): (s: Screen)
    ensures s.app.activeTab == ChatTab && s.input.inputValue == ""
    ensures s.input == InitialInput && !s.input.showHistoryMenu && s.input.selectedHistoryItem == None
    ensures s.app.chat == InitialConversation && s.app.notes == seedNotes
    ensures !ShouldRespond(s.app.chat)
  {
    InitialInv();
    Screen(App(seedNotes, InitialConversation, ChatTab), InitialInput)
  }

  /** The text field reporting an edit. */
  function ChangeText(s: Screen, text: string): (r: Screen)
    ensures r.input.inputValue == text
    ensures r.input == s.input.(inputValue := text)
    ensures r.app == s.app
  {
    s.(input := s.input.(inputValue := text))
  }

  /** The send button. An empty field sends nothing. Otherwise the text,
      exactly as typed, becomes a note on the notes tab and a user chat
      message on any other tab, and the field is cleared. The clock and the
      identifier generators are the parameters. */
  function Send(s: Screen, noteId: nat, timestamp: string, messageId: nat): (r: Screen)
    ensures |s.input.inputValue| == 0 ==> r == s
    ensures |s.input.inputValue| > 0 ==>
              && r.input == s.input.(inputValue := "")
              && r.app.activeTab == s.app.activeTab
    ensures |s.input.inputValue| > 0 && s.app.activeTab == NotesTab ==>
              && r.app.notes == AddNote(s.app.notes, s.input.inputValue, noteId, timestamp)
              && r.app.chat == s.app.chat
    ensures |s.input.inputValue| > 0 && s.app.activeTab != NotesTab ==>
              && r.app.chat == AddChatMessage(s.app.chat, s.input.inputValue, messageId)
              && r.app.notes == s.app.notes
  {
    var text := s.input.inputValue;
    if |text| > 0 then
      var app :=
        if s.app.activeTab == NotesTab then s.app.(notes := AddNote(s.app.notes, text, noteId, timestamp))
        else s.app.(chat := AddChatMessage(s.app.chat, text, messageId));
      Screen(app, s.input.(inputValue := ""))
    else s
  }

  /** A send files the typed text in exactly one place: one new entry, in
      the list the tab selects, carrying the text; an empty field files
      nothing. */
  lemma SendFilesExactlyOnce(s: Screen, noteId: nat, timestamp: string, messageId: nat)
    ensures var r := Send(s, noteId, timestamp, messageId);
            var before := |s.app.notes| + |s.app.chat.messages|;
            var after := |r.app.notes| + |r.app.chat.messages|;
            && (|s.input.inputValue| > 0 ==> after == before + 1)
            && (|s.input.inputValue| == 0 ==> after == before)
            && (|r.app.notes| > |s.app.notes| ==> r.app.notes[|s.app.notes|].text == s.input.inputValue)
            && (|r.app.chat.messages| > |s.app.chat.messages| ==>
                  r.app.chat.messages[|s.app.chat.messages|] == ChatMessage(messageId, User, s.input.inputValue))
  {
  }

  /** Typing a non-empty text and pressing send files exactly that text:
      as the newest note on the notes tab, as the newest user message on
      any other tab, leaving the other list alone and the field empty. */
  lemma TypedTextIsSent(s: Screen, text: string, noteId: nat, timestamp: string, messageId: nat)
    requires |text| > 0
    ensures var r := Send(ChangeText(s, text), noteId, timestamp, messageId);
            && r.input == s.input.(inputValue := "")
            && r.app.activeTab == s.app.activeTab
            && (s.app.activeTab == NotesTab ==>
                  && r.app.notes == s.app.notes + [Note(noteId, timestamp, text)]
                  && r.app.chat == s.app.chat)
            && (s.app.activeTab != NotesTab ==>
                  && r.app.chat.messages == s.app.chat.messages + [ChatMessage(messageId, User, text)]
                  && r.app.chat.isAITyping == s.app.chat.isAITyping
                  && r.app.notes == s.app.notes)
  {
  }

  /** Sending right after a send does nothing, since the field is empty. */
  lemma SendTwiceIsSendOnce(s: Screen, noteId: nat, timestamp: string, messageId: nat,
                            noteId': nat, timestamp': string, messageId': nat)
    ensures var r := Send(s, noteId, timestamp, messageId);
            Send(r, noteId', timestamp', messageId') == r
  {
  }

  /** The emptiness test looks at the length only, so a field of spaces is
      sent as it stands. */
  lemma BlankTextIsSent(s: Screen, messageId: nat)
    requires s.input.inputValue == "   "
    requires s.app.activeTab == ChatTab
    ensures var r := Send(s, 0, "", messageId);
            r.app.chat.messages == s.app.chat.messages + [ChatMessage(messageId, User, "   ")]
  {
  }

  /** Pressing a history-menu entry: pressing the selected entry clears the
      selection, pressing another selects it; the menu closes either way.
      The second component says whether the text field is focused, which
      happens exactly when the entry was not already selected. */
  function SelectHistoryItem(input: Input, item: string): (r: (Input, bool))
    requires item in HistoryItems
    ensures !r.0.showHistoryMenu
    ensures r.0.inputValue == input.inputValue
    ensures r.0.selectedHistoryItem == Some(item) <==> input.selectedHistoryItem != Some(item)
    ensures r.0.selectedHistoryItem.Some? ==> r.0.selectedHistoryItem == Some(item)
    ensures r.1 <==> input.selectedHistoryItem != Some(item)
  {
    var focus := input.selectedHistoryItem != Some(item);
    var selected := if input.selectedHistoryItem == Some(item) then None else Some(item);
    (input.(selectedHistoryItem := selected, showHistoryMenu := false), focus)
  }

  /** Pressing the same entry twice restores the selection there was,
      provided it was that entry or nothing. */
  lemma SelectHistoryItemTwice(input: Input, item: string)
    requires item in HistoryItems
    requires input.selectedHistoryItem == None || input.selectedHistoryItem == Some(item)
    ensures SelectHistoryItem(SelectHistoryItem(input, item).0, item).0.selectedHistoryItem
              == input.selectedHistoryItem
  {
  }

  /** A selection, when there is one, is always an entry of the menu. */
  predicate SelectionListed(input: Input)
  {
    input.selectedHistoryItem.Some? ==> input.selectedHistoryItem.value in HistoryItems
  }

  lemma SelectKeepsSelectionListed(input: Input, item: string)
    requires item in HistoryItems
    requires SelectionListed(input)
    ensures SelectionListed(SelectHistoryItem(input, item).0)
  {
  }

  /** The clock button opens a closed menu and closes an open one. */
  function ToggleHistoryMenu(input: Input): (r: Input)
    ensures r.showHistoryMenu != input.showHistoryMenu
    ensures r.inputValue == input.inputValue && r.selectedHistoryItem == input.selectedHistoryItem
  {
    input.(showHistoryMenu := !input.showHistoryMenu)
  }

  lemma ToggleHistoryMenuTwice(input: Input)
    ensures ToggleHistoryMenu(ToggleHistoryMenu(input)) == input
  {
  }
}
