/** The seed data: the four roommates. */
module Constants {
  import opened Types

  const MockRoommates: seq<Roommate> := [
    Roommate("u1", "阿强", "bg-blue-500"),
    Roommate("u2", "小明", "bg-green-500"),
    Roommate("u3", "老张", "bg-purple-500"),
    Roommate("u4", "大力", "bg-orange-500")
  ]
}
