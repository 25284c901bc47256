/**
 * The `App` component's state and event handlers. Each React state variable is a
 * field; each handler is a method that performs the same setter calls. A handler
 * reads the state as it was when the event fired and its setters take effect
 * together, which is what a method that computes from the old fields and then
 * assigns them does.
 */
module App {
  import opened Wrappers
  import opened Text
  import opened Todos
  import opened Grouping

  /** The notification bar: whether it is shown and its last message. */
  datatype Snackbar = Snackbar(open: bool, message: string)

  /** What reading one stored entry gave: nothing (missing or empty), text that does not parse, or a value. */
  datatype Stored<T> = Absent | Unparsable | Parsed(value: T)

  const MsgLoadFailed: string := "저장된 데이터를 불러오는 중 오류가 발생했습니다."
  const MsgCleared: string := "모든 할 일이 삭제되었습니다."
  const MsgEnterName: string := "이름을 입력해주세요."
  const MsgProfileSaved: string := "프로필이 저장되었습니다."
  const MsgEnterTask: string := "할 일을 입력해주세요."
  const MsgEnterPeriod: string := "기간을 입력해주세요."
  const MsgEdited: string := "할 일이 수정되었습니다."
  const MsgAdded: string := "할 일이 추가되었습니다."
  const MsgDeleted: string := "할 일이 삭제되었습니다."

  /** The record `handleAddTodo` appends: unset completion, the current display name as author. */
  function NewTodo(id: int, period: string, text: string, profile: UserProfile): (t: Todo)
    ensures t.id == id && t.period == period && t.text == text && !t.completed
    ensures t.author.Some? && t.author.value == DisplayName(profile) && t.author.value != ""
  {
    Todo(id, period, text, false, Some(DisplayName(profile)))
  }

  class TodoApp {
    var todos: seq<Todo>
    var input: string
    var period: string
    var editingId: Option<int>
    var snackbar: Snackbar
    var profileDialogOpen: bool
    var userProfile: UserProfile

    /** The initial `useState` values. */
    constructor ()
      ensures todos == [] && input == "" && period == "" && editingId == None
      ensures snackbar == Snackbar(false, "") && !profileDialogOpen
      ensures userProfile == UserProfile("", false)
    {
      todos := [];
      input := "";
      period := "";
      editingId := None;
      snackbar := Snackbar(false, "");
      profileDialogOpen := false;
      userProfile := UserProfile("", false);
    }

    /**
     * The mount effect: a parsed entry replaces the state; an unparsable to-do entry
     * keeps the list and raises a notification; an unparsable profile keeps the profile.
     */
    method LoadSaved(savedTodos: Stored<seq<Todo>>, savedProfile: Stored<UserProfile>)
      modifies this
      ensures todos == if savedTodos.Parsed? then savedTodos.value else old(todos)
      ensures userProfile == if savedProfile.Parsed? then savedProfile.value else old(userProfile)
      ensures snackbar == if savedTodos.Unparsable? then Snackbar(true, MsgLoadFailed) else old(snackbar)
      ensures input == old(input) && period == old(period) && editingId == old(editingId)
      ensures profileDialogOpen == old(profileDialogOpen)
    {
      match savedTodos {
        case Parsed(ts) => todos := ts;
        case Unparsable => snackbar := Snackbar(true, MsgLoadFailed);
        case Absent =>
      }
      match savedProfile {
        case Parsed(p) => userProfile := p;
        case Unparsable =>
        case Absent =>
      }
    }

    /** `getDisplayName()` on the current profile. */
    function GetDisplayName(): (r: string)
      reads this
      ensures r != ""
      ensures userProfile.isAnonymous ==> r == AnonymousName
      ensures !userProfile.isAnonymous ==> r == if userProfile.name == "" then NoName else userProfile.name
    {
      DisplayName(userProfile)
    }

    /**
     * `groupedTodos` for the current list: `None` when the reduce throws because a
     * period is an inherited property name, otherwise a partition of the list by period.
     */
    function GroupedTodos(): (r: Option<seq<Group>>)
      reads this
      ensures r.None? <==> HasInheritedPeriod(todos)
      ensures r.Some? ==> DistinctKeys(r.value) && TotalSize(r.value) == |todos|
      ensures r.Some? ==> forall k :: k in Keys(r.value) <==> k in Periods(todos)
      ensures r.Some? ==> forall k :: Lookup(r.value, k) == InPeriod(todos, k)
    {
      GroupTodosOutcome(todos);
      GroupByPeriodIsPartition(todos);
      GroupTodos(todos)
    }

    /** `window.confirm` is the parameter `confirmed`; removing the stored entry is not modelled. */
    method ClearAllTodos(confirmed: bool)
      modifies this
      ensures confirmed ==> todos == [] && snackbar == Snackbar(true, MsgCleared)
      ensures !confirmed ==> todos == old(todos) && snackbar == old(snackbar)
      ensures input == old(input) && period == old(period) && editingId == old(editingId)
      ensures profileDialogOpen == old(profileDialogOpen) && userProfile == old(userProfile)
    {
      if confirmed {
        todos := [];
        snackbar := Snackbar(true, MsgCleared);
      }
    }

    method HandleOpenProfileDialog()
      modifies this
      ensures profileDialogOpen
      ensures todos == old(todos) && input == old(input) && period == old(period)
      ensures editingId == old(editingId) && snackbar == old(snackbar) && userProfile == old(userProfile)
    {
      profileDialogOpen := true;
    }

    method HandleCloseProfileDialog()
      modifies this
      ensures !profileDialogOpen
      ensures todos == old(todos) && input == old(input) && period == old(period)
      ensures editingId == old(editingId) && snackbar == old(snackbar) && userProfile == old(userProfile)
    {
      profileDialogOpen := false;
    }

    /** The anonymity switch of the profile dialog. */
    method SetAnonymous(anonymous: bool)
      modifies this
      ensures userProfile == old(userProfile).(isAnonymous := anonymous)
      ensures todos == old(todos) && input == old(input) && period == old(period) && editingId == old(editingId)
      ensures snackbar == old(snackbar) && profileDialogOpen == old(profileDialogOpen)
    {
      userProfile := userProfile.(isAnonymous := anonymous);
    }

    /** The name field of the profile dialog. */
    method SetName(name: string)
      modifies this
      ensures userProfile == old(userProfile).(name := name)
      ensures todos == old(todos) && input == old(input) && period == old(period) && editingId == old(editingId)
      ensures snackbar == old(snackbar) && profileDialogOpen == old(profileDialogOpen)
    {
      userProfile := userProfile.(name := name);
    }

    /**
     * `handleSaveProfile`: a named profile whose name is blank is refused with a
     * notification and the dialog stays as it was; otherwise the dialog closes.
     * The profile itself is not changed either way.
     */
    method HandleSaveProfile()
      modifies this
      ensures !userProfile.isAnonymous && Blank(userProfile.name) ==>
        profileDialogOpen == old(profileDialogOpen) && snackbar == Snackbar(true, MsgEnterName)
      ensures userProfile.isAnonymous || !Blank(userProfile.name) ==>
        !profileDialogOpen && snackbar == Snackbar(true, MsgProfileSaved)
      ensures userProfile == old(userProfile) && todos == old(todos) && input == old(input)
      ensures period == old(period) && editingId == old(editingId)
    {
      TrimEmptyIffBlank(userProfile.name);
      if !userProfile.isAnonymous && Trim(userProfile.name) == "" {
        snackbar := Snackbar(true, MsgEnterName);
        return;
      }
      profileDialogOpen := false;
      snackbar := Snackbar(true, MsgProfileSaved);
    }

    /** The period text field. */
    method SetPeriod(value: string)
      modifies this
      ensures period == value
      ensures todos == old(todos) && input == old(input) && editingId == old(editingId)
      ensures snackbar == old(snackbar) && profileDialogOpen == old(profileDialogOpen) && userProfile == old(userProfile)
    {
      period := value;
    }

    /** The task text field. */
    method SetInput(value: string)
      modifies this
      ensures input == value
      ensures todos == old(todos) && period == old(period) && editingId == old(editingId)
      ensures snackbar == old(snackbar) && profileDialogOpen == old(profileDialogOpen) && userProfile == old(userProfile)
    {
      input := value;
    }

    /**
     * `handleAddTodo`, with `Date.now()` as the parameter `now`. A blank task, then a
     * blank period, aborts with a notification and changes nothing else. Otherwise a
     * pending edit rewrites the records with the pending id and ends the edit, or a new
     * record is appended; both clear the two text fields.
     */
    method HandleAddTodo(now: int)
      modifies this
      ensures Blank(old(input)) ==>
        && todos == old(todos) && input == old(input) && period == old(period) && editingId == old(editingId)
        && snackbar == Snackbar(true, MsgEnterTask)
      ensures !Blank(old(input)) && Blank(old(period)) ==>
        && todos == old(todos) && input == old(input) && period == old(period) && editingId == old(editingId)
        && snackbar == Snackbar(true, MsgEnterPeriod)
      ensures !Blank(old(input)) && !Blank(old(period)) && old(editingId).Some? ==>
        && todos == EditMatching(old(todos), old(editingId).value, old(input), old(period))
        && editingId == None && snackbar == Snackbar(true, MsgEdited)
      ensures !Blank(old(input)) && !Blank(old(period)) && old(editingId).None? ==>
        && todos == old(todos) + [NewTodo(now, old(period), old(input), old(userProfile))]
        && editingId == None && snackbar == Snackbar(true, MsgAdded)
      ensures !Blank(old(input)) && !Blank(old(period)) ==> input == "" && period == ""
      ensures UniqueIds(old(todos)) && (old(editingId).None? ==> now !in Ids(old(todos))) ==> UniqueIds(todos)
      ensures userProfile == old(userProfile) && profileDialogOpen == old(profileDialogOpen)
    {
      TrimEmptyIffBlank(input);
      TrimEmptyIffBlank(period);
      if Trim(input) == "" {
        snackbar := Snackbar(true, MsgEnterTask);
        return;
      }
      if Trim(period) == "" {
        snackbar := Snackbar(true, MsgEnterPeriod);
        return;
      }
      if editingId.Some? {
        EditKeepsIds(todos, editingId.value, input, period);
        todos := EditMatching(todos, editingId.value, input, period);
        editingId := None;
        snackbar := Snackbar(true, MsgEdited);
      } else {
        var t := NewTodo(now, period, input, userProfile);
        UniqueIdsAppend(todos, t);
        todos := todos + [t];
        snackbar := Snackbar(true, MsgAdded);
      }
      input := "";
      period := "";
    }

    /** `handleDeleteTodo`: drops the records with that id; the notification is shown even when none had it. */
    method HandleDeleteTodo(id: int)
      modifies this
      ensures todos == Without(old(todos), id) && snackbar == Snackbar(true, MsgDeleted)
      ensures UniqueIds(old(todos)) ==> UniqueIds(todos)
      ensures UniqueIds(old(todos)) && id in Ids(old(todos)) ==> |todos| == |old(todos)| - 1
      ensures id !in Ids(old(todos)) ==> todos == old(todos)
      ensures input == old(input) && period == old(period) && editingId == old(editingId)
      ensures profileDialogOpen == old(profileDialogOpen) && userProfile == old(userProfile)
    {
      DeleteSummary(todos, id);
      todos := Without(todos, id);
      snackbar := Snackbar(true, MsgDeleted);
    }

    /** `handleEditTodo`: loads the record's text and period into the fields and marks its id as pending. */
    method HandleEditTodo(todo: Todo)
      modifies this
      ensures input == todo.text && period == todo.period && editingId == Some(todo.id)
      ensures todos == old(todos) && snackbar == old(snackbar)
      ensures profileDialogOpen == old(profileDialogOpen) && userProfile == old(userProfile)
    {
      input := todo.text;
      period := todo.period;
      editingId := Some(todo.id);
    }

    /** `handleToggleComplete`: flips `completed` on the records with that id; no notification. */
    method HandleToggleComplete(id: int)
      modifies this
      ensures todos == ToggleMatching(old(todos), id)
      ensures UniqueIds(old(todos)) ==> UniqueIds(todos)
      ensures input == old(input) && period == old(period) && editingId == old(editingId)
      ensures snackbar == old(snackbar) && profileDialogOpen == old(profileDialogOpen) && userProfile == old(userProfile)
    {
      ToggleKeepsIds(todos, id);
      todos := ToggleMatching(todos, id);
    }

    /** `handleCloseSnackbar`: hides the notification and keeps its message. */
    method HandleCloseSnackbar()
      modifies this
      ensures snackbar == old(snackbar).(open := false)
      ensures todos == old(todos) && input == old(input) && period == old(period) && editingId == old(editingId)
      ensures profileDialogOpen == old(profileDialogOpen) && userProfile == old(userProfile)
    {
      snackbar := snackbar.(open := false);
    }
  }
}
