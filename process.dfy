/**
 * What the scripts do to the outside world, recorded as a trace of events.
 * External programs are never interpreted: an event names the program run
 * (argument vector or shell command line) or the file operation performed.
 * No event carries an exit status: the few outcomes the scripts react to
 * (a raising `check_output`, a missing `.gz`, a failing `bw.stats`) are
 * inputs of the models.
 */
module Process {

  datatype Event =
    | Exec(argv: seq<string>)          // subprocess.run on an argument vector
    | Shell(command: string)           // subprocess.run / check_output with shell=True
    | Copy(src: string, dst: string)   // shutil.copy
    | Move(src: string, dst: string)   // shutil.move

}
