/**
 * Standard output, as the sequence of lines the program prints. Each line is a
 * structured value standing for one `printf` / `println` format; the
 * elapsed-time part of the summary line is not kept.
 */
module StandardOutput {

  /** What a progress line says after "NN%  name -->". */
  datatype Note =
    | NotAnImage                 // "skipped, not an image"
    | ScoreNote(scoreText: string) // the score, formatted with "%.4f"
    | ProcessingError            // "sorry, processing stopped because of an error"
    | TypeNotSupported           // "skipped, image type not supported"

  datatype Line =
    // printed by the progress tracker
    | ProgressLine(percent: int, fileName: string, note: Note)
    | CannotRenameScored(fileName: string, newFilename: string)   // "Cannot rename file %s: %s already exists"
    | AllProcessed(count: int)                                     // "Yeah! %d images successfully processed in ..."
    // printed by the processors
    | LookingIn(path: string)                                      // "Looking for cool pictures in %s ..."
    | LookingForPictures                                           // "Looking for cool pictures..."
    | NotADirectory(path: string)                                  // "Error: path %s is not a directory."
    | NoImagesInPath                                               // "Sorry, no images found in this path."
    | NoImagesFound                                                // "Sorry, no images found."
    | FoundImages(count: int)                                      // "Great! Blurry found %d images! ..."
    | CannotRestore(fileName: string, newFilename: string)         // "Cannot rename file %s: %s already exists."
    | NoFileMatched                                                // "No file matched the Blurry filename pattern, ..."
    | NoImageMatched                                               // "No image matched the Blurry filename pattern, ..."
    | FilesRestored(count: int)                                    // "%d files successfully restored ..."
    | ImagesRestored(count: int)                                   // "%d images successfully restored ..."

  class Console {
    var lines: seq<Line>

    constructor ()
      ensures lines == []
    {
      lines := [];
    }

    method PrintLine(line: Line)
      modifies this
      ensures lines == old(lines) + [line]
    {
      lines := lines + [line];
    }
  }
}
