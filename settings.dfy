/** Program settings read at start-up (src/settings.rs). Only the two folder/file
    fields take part in the modelled logic; the rest are carried along unchanged. */
module Settings {

  datatype Settings = Settings(
    programName: string,
    programVer: string,
    programDevs: seq<string>,
    programWeb: string,
    fractalsFolder: string,   // folder every settings file and image is written to
    fractalFile: string,      // default settings file name
    histPlotLog: bool)
}
