/**
 * The browser key-value store with its five keys: `user`, `userRole`, `classCode`, `students`
 * and `classes`. JSON encoding is not modelled: each key holds a typed value, and an absent
 * collection key reads as the empty array, as every reader's `|| '[]'` does.
 */
module Storage {
  import opened Wrappers
  import opened Types

  /** The text under the `user` key: the JSON of a user, or text JSON.parse rejects. */
  datatype SavedUser = UserJson(info: UserInfo) | Malformed(raw: string)

  datatype StoreState = StoreState(
    user: Option<SavedUser>,
    userRole: Option<string>,
    classCode: Option<string>,
    students: seq<StudentRecord>,
    classes: seq<ClassRecord>)

  /** The store as one mutable object shared by every component that reads or writes it. */
  class Store {
    var user: Option<SavedUser>
    var userRole: Option<string>
    var classCode: Option<string>
    var students: seq<StudentRecord>
    var classes: seq<ClassRecord>

    function Value(): StoreState
      reads this
    {
      StoreState(user, userRole, classCode, students, classes)
    }

    constructor (init: StoreState)
      ensures Value() == init
    {
      user, userRole, classCode := init.user, init.userRole, init.classCode;
      students, classes := init.students, init.classes;
    }
  }
}
