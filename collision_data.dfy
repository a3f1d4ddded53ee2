/** The name-collision records shared by the collision screen and the copy use case. */
module CollisionData {
  import opened Common

  /** `NameCollisionChoice`. */
  datatype NameCollisionChoice = RENAME | REPLACE_UPDATE_MERGE | CANCEL

  /** `NameCollisionType`. */
  datatype NameCollisionType = UPLOAD | MOVE | COPY

  /** `NameCollision`: an item that clashes with `collisionHandle`, an existing node of
      the same name under `parentHandle`. */
  datatype NameCollision =
    | Upload(collisionHandle: int, parentHandle: int, isFile: bool)
    | Copy(collisionHandle: int, nodeHandle: int, parentHandle: int, isFile: bool)
    | Movement(collisionHandle: int, nodeHandle: int, parentHandle: int, isFile: bool)
    | Import(collisionHandle: int, chatId: int, messageId: int, nodeHandle: int,
             parentHandle: int, isFile: bool)

  /** `NameCollisionResult`: a collision with the name proposed for renaming and, once
      resolved, the user's choice. */
  datatype NameCollisionResult = NameCollisionResult(
    nameCollision: NameCollision,
    renameName: Option<string>,
    choice: Option<NameCollisionChoice>)

  /** The choice applied by `proceedWithAction`. */
  function ChoiceFor(rename: bool): (choice: NameCollisionChoice)
    ensures choice == RENAME <==> rename
    ensures choice != CANCEL
  {
    if rename then RENAME else REPLACE_UPDATE_MERGE
  }

  /** The same collision with its choice set. */
  function WithChoice(r: NameCollisionResult, choice: NameCollisionChoice): (tagged: NameCollisionResult)
    ensures tagged.nameCollision == r.nameCollision && tagged.renameName == r.renameName
    ensures tagged.choice == Some(choice)
  {
    r.(choice := Some(choice))
  }
}
