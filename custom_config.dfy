/** Section defaulting of aconfig/custom_config.go: the complete() methods
    replace every zero or empty field of a section with a fixed default and
    leave every explicitly set field alone. Each Go struct is a class whose
    methods update its fields in place; Value() is the section's contents as a
    record, and the record's Completed() is what completion makes of it. */
module CustomConfig {
  import opened GoTypes

  const DefaultLogLevel: string := "info"
  const DefaultLogDirectory: string := "/data/log"

  const DefaultMaxOpenConnections: int64 := 100
  const DefaultMaxIdleConnections: int64 := 5
  const DefaultConnectionMaxLifeSeconds: int64 := 3600
  const DefaultConnectionMaxIdleSeconds: int64 := 300
  const DefaultSlowThresholdMilliseconds: int64 := 500

  const DefaultPropertyPrefix: string := "ENC("
  const DefaultPropertySuffix: string := ")"

  datatype LogSection = LogSection(level: string, directory: string) {

    /** No field that completion defaults is empty. */
    predicate IsComplete()
    {
      level != "" && directory != ""
    }

    function Completed(): (r: LogSection)
      ensures r.IsComplete()
      ensures IsComplete() ==> r == this
      ensures level == "" ==> r.level == DefaultLogLevel
      ensures level != "" ==> r.level == level
      ensures directory == "" ==> r.directory == DefaultLogDirectory
      ensures directory != "" ==> r.directory == directory
    {
      LogSection(
        if level == "" then DefaultLogLevel else level,
        if directory == "" then DefaultLogDirectory else directory)
    }
  }

  datatype DatabaseSection = DatabaseSection(
    maxOpenConnections: int64,
    maxIdleConnections: int64,
    connectionMaxLifeSeconds: int64,
    connectionMaxIdleSeconds: int64,
    slowThresholdMilliseconds: int64)
  {
    predicate IsComplete()
    {
      && maxOpenConnections != 0
      && maxIdleConnections != 0
      && connectionMaxLifeSeconds != 0
      && connectionMaxIdleSeconds != 0
      && slowThresholdMilliseconds != 0
    }

    /** Only fields equal to 0 are defaulted: a negative value is kept. */
    function Completed(): (r: DatabaseSection)
      ensures r.IsComplete()
      ensures IsComplete() ==> r == this
      ensures maxOpenConnections == 0 ==> r.maxOpenConnections == DefaultMaxOpenConnections
      ensures maxOpenConnections != 0 ==> r.maxOpenConnections == maxOpenConnections
      ensures maxIdleConnections == 0 ==> r.maxIdleConnections == DefaultMaxIdleConnections
      ensures maxIdleConnections != 0 ==> r.maxIdleConnections == maxIdleConnections
      ensures connectionMaxLifeSeconds == 0 ==> r.connectionMaxLifeSeconds == DefaultConnectionMaxLifeSeconds
      ensures connectionMaxLifeSeconds != 0 ==> r.connectionMaxLifeSeconds == connectionMaxLifeSeconds
      ensures connectionMaxIdleSeconds == 0 ==> r.connectionMaxIdleSeconds == DefaultConnectionMaxIdleSeconds
      ensures connectionMaxIdleSeconds != 0 ==> r.connectionMaxIdleSeconds == connectionMaxIdleSeconds
      ensures slowThresholdMilliseconds == 0 ==> r.slowThresholdMilliseconds == DefaultSlowThresholdMilliseconds
      ensures slowThresholdMilliseconds != 0 ==> r.slowThresholdMilliseconds == slowThresholdMilliseconds
    {
      DatabaseSection(
        if maxOpenConnections == 0 then DefaultMaxOpenConnections else maxOpenConnections,
        if maxIdleConnections == 0 then DefaultMaxIdleConnections else maxIdleConnections,
        if connectionMaxLifeSeconds == 0 then DefaultConnectionMaxLifeSeconds else connectionMaxLifeSeconds,
        if connectionMaxIdleSeconds == 0 then DefaultConnectionMaxIdleSeconds else connectionMaxIdleSeconds,
        if slowThresholdMilliseconds == 0 then DefaultSlowThresholdMilliseconds else slowThresholdMilliseconds)
    }
  }

  datatype EncryptorSection = EncryptorSection(password: string, propertyPrefix: string, propertySuffix: string) {

    predicate IsComplete()
    {
      propertyPrefix != "" && propertySuffix != ""
    }

    /** The password is never defaulted. */
    function Completed(): (r: EncryptorSection)
      ensures r.IsComplete()
      ensures IsComplete() ==> r == this
      ensures r.password == password
      ensures propertyPrefix == "" ==> r.propertyPrefix == DefaultPropertyPrefix
      ensures propertyPrefix != "" ==> r.propertyPrefix == propertyPrefix
      ensures propertySuffix == "" ==> r.propertySuffix == DefaultPropertySuffix
      ensures propertySuffix != "" ==> r.propertySuffix == propertySuffix
    {
      EncryptorSection(
        password,
        if propertyPrefix == "" then DefaultPropertyPrefix else propertyPrefix,
        if propertySuffix == "" then DefaultPropertySuffix else propertySuffix)
    }
  }

  datatype CommonSection = CommonSection(log: LogSection, database: DatabaseSection, encryptor: EncryptorSection) {

    predicate IsComplete()
    {
      log.IsComplete() && database.IsComplete() && encryptor.IsComplete()
    }

    function Completed(): (r: CommonSection)
      ensures r.IsComplete()
      ensures IsComplete() ==> r == this
    {
      CommonSection(log.Completed(), database.Completed(), encryptor.Completed())
    }
  }

  /** Completing a completed section changes nothing: Common.Complete is idempotent. */
  lemma CompleteIsIdempotent(c: CommonSection)
    ensures c.Completed().Completed() == c.Completed()
  {
  }

  class Log {
    var level: string
    var directory: string

    constructor (section: LogSection)
      ensures Value() == section
    {
      level := section.level;
      directory := section.directory;
    }

    function Value(): LogSection
      reads this
    {
      LogSection(level, directory)
    }

    /** Log.complete */
    method Complete()
      modifies this
      ensures Value() == old(Value()).Completed()
    {
      if level == "" {
        level := DefaultLogLevel;
      }
      if directory == "" {
        directory := DefaultLogDirectory;
      }
    }
  }

  class Database {
    var maxOpenConnections: int64
    var maxIdleConnections: int64
    var connectionMaxLifeSeconds: int64
    var connectionMaxIdleSeconds: int64
    var slowThresholdMilliseconds: int64

    constructor (section: DatabaseSection)
      ensures Value() == section
    {
      maxOpenConnections := section.maxOpenConnections;
      maxIdleConnections := section.maxIdleConnections;
      connectionMaxLifeSeconds := section.connectionMaxLifeSeconds;
      connectionMaxIdleSeconds := section.connectionMaxIdleSeconds;
      slowThresholdMilliseconds := section.slowThresholdMilliseconds;
    }

    function Value(): DatabaseSection
      reads this
    {
      DatabaseSection(
        maxOpenConnections, maxIdleConnections, connectionMaxLifeSeconds,
        connectionMaxIdleSeconds, slowThresholdMilliseconds)
    }

    /** Database.complete */
    method Complete()
      modifies this
      ensures Value() == old(Value()).Completed()
    {
      if maxOpenConnections == 0 {
        maxOpenConnections := DefaultMaxOpenConnections;
      }
      if maxIdleConnections == 0 {
        maxIdleConnections := DefaultMaxIdleConnections;
      }
      if connectionMaxLifeSeconds == 0 {
        connectionMaxLifeSeconds := DefaultConnectionMaxLifeSeconds;
      }
      if connectionMaxIdleSeconds == 0 {
        connectionMaxIdleSeconds := DefaultConnectionMaxIdleSeconds;
      }
      if slowThresholdMilliseconds == 0 {
        slowThresholdMilliseconds := DefaultSlowThresholdMilliseconds;
      }
    }
  }

  class Encryptor {
    var password: string
    var propertyPrefix: string
    var propertySuffix: string

    constructor (section: EncryptorSection)
      ensures Value() == section
    {
      password := section.password;
      propertyPrefix := section.propertyPrefix;
      propertySuffix := section.propertySuffix;
    }

    function Value(): EncryptorSection
      reads this
    {
      EncryptorSection(password, propertyPrefix, propertySuffix)
    }

    /** Encryptor.complete */
    method Complete()
      modifies this
      ensures Value() == old(Value()).Completed()
    {
      if propertyPrefix == "" {
        propertyPrefix := DefaultPropertyPrefix;
      }
      if propertySuffix == "" {
        propertySuffix := DefaultPropertySuffix;
      }
    }
  }

  /** The Common struct embeds its three sections; here each is an object the
      Common owns. */
  class Common {
    const log: Log
    const database: Database
    const encryptor: Encryptor

    constructor (section: CommonSection)
      ensures Value() == section
      ensures fresh(log) && fresh(database) && fresh(encryptor)
    {
      log := new Log(section.log);
      database := new Database(section.database);
      encryptor := new Encryptor(section.encryptor);
    }

    function Value(): CommonSection
      reads this, log, database, encryptor
    {
      CommonSection(log.Value(), database.Value(), encryptor.Value())
    }

    /** Common.Complete: completes the log, database and encryptor sections in turn. */
    method Complete()
      modifies log, database, encryptor
      ensures Value() == old(Value()).Completed()
    {
      log.Complete();
      database.Complete();
      encryptor.Complete();
    }
  }
}
