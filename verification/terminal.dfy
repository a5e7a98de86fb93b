/**
 The host terminal as the layout code sees it: the sixteen console colours, the
 keys the menu reacts to, and a line of text written with a colour pair.
 Writing, clearing and cursor movement are not modelled; operations return the
 lines they would write instead.
 */
module Terminal {

  /** The sixteen console colours, in the order the platform enumerates them. */
  datatype Color =
    | Black | DarkBlue | DarkGreen | DarkCyan | DarkRed | DarkMagenta | DarkYellow | Gray
    | DarkGray | Blue | Green | Cyan | Red | Magenta | Yellow | White

  /** A key read by the menu loop; every key other than the three it reacts to is `OtherKey`. */
  datatype Key = UpArrow | DownArrow | Enter | OtherKey

  /** One line of output written in a foreground and a background colour. */
  datatype Line = Line(text: string, foreground: Color, background: Color)

  /** A value that may be absent. */
  datatype Option<+T> = None | Some(value: T)
}
